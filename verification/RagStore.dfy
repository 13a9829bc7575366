/** The in-memory document store: chunks kept in one slice, upserted through an index
    built on the spot, deleted by compaction in place, and searched by keyword. */
module RagStore {
  import opened Options
  import opened Ranking
  import Text

  datatype Chunk = Chunk(id: string, service: string, endpoint: string, kind: string,
                         content: string, version: string)

  /** Unicode lower-casing, and the folding under which two names are the same. */
  datatype Folding = Folding(lower: string -> string, fold: string -> string)

  // ---------- the chunks as a keyed store ----------

  /** Where the chunk with this id is, or the length if there is none. */
  function Position(chunks: seq<Chunk>, id: string): (p: nat)
    ensures p <= |chunks|
    ensures forall i :: 0 <= i < p ==> chunks[i].id != id
    ensures p < |chunks| ==> chunks[p].id == id
  {
    if chunks == [] || chunks[0].id == id then 0 else 1 + Position(chunks[1..], id)
  }

  function Find(chunks: seq<Chunk>, id: string): Option<Chunk> {
    var p := Position(chunks, id);
    if p < |chunks| then Some(chunks[p]) else None
  }

  ghost predicate UniqueIds(chunks: seq<Chunk>) {
    forall i, j :: 0 <= i < j < |chunks| ==> chunks[i].id != chunks[j].id
  }

  /** One chunk of a batch: over the chunk with its id, or at the end. */
  function Put(chunks: seq<Chunk>, c: Chunk): seq<Chunk> {
    var p := Position(chunks, c.id);
    if p < |chunks| then chunks[p := c] else chunks + [c]
  }

  function PutAll(chunks: seq<Chunk>, batch: seq<Chunk>): seq<Chunk> {
    if batch == [] then chunks else Put(PutAll(chunks, batch[..|batch| - 1]), batch[|batch| - 1])
  }

  function Keep(keep: Chunk -> bool, chunks: seq<Chunk>): seq<Chunk> {
    if chunks == [] then []
    else Keep(keep, chunks[..|chunks| - 1]) + if keep(chunks[|chunks| - 1]) then [chunks[|chunks| - 1]] else []
  }

  function NotIn(ids: seq<string>): Chunk -> bool { (c: Chunk) => c.id !in ids }

  function Outside(ids: set<string>): Chunk -> bool { (c: Chunk) => c.id !in ids }

  function NotOf(f: Folding, service: string): Chunk -> bool { (c: Chunk) => f.fold(c.service) != f.fold(service) }

  datatype Op = Upsert(batch: seq<Chunk>) | Delete(ids: seq<string>) | DeleteByService(service: string)

  function After(f: Folding, chunks: seq<Chunk>, op: Op): seq<Chunk> {
    match op
    case Upsert(batch) => PutAll(chunks, batch)
    case Delete(ids) => Keep(NotIn(ids), chunks)
    case DeleteByService(service) => Keep(NotOf(f, service), chunks)
  }

  function Run(f: Folding, ops: seq<Op>): seq<Chunk> {
    if ops == [] then [] else After(f, Run(f, ops[..|ops| - 1]), ops[|ops| - 1])
  }

  // ---------- what a reader of the history expects ----------

  /** The last chunk of a batch with this id. */
  function LastIn(batch: seq<Chunk>, id: string): Option<Chunk> {
    if batch == [] then None
    else if batch[|batch| - 1].id == id then Some(batch[|batch| - 1])
    else LastIn(batch[..|batch| - 1], id)
  }

  /** Reading the history backwards: the last write of the id, unless a deletion of
      the id or of its service came after it. */
  function LastWrite(f: Folding, ops: seq<Op>, id: string): Option<Chunk> {
    if ops == [] then None else
    var before := LastWrite(f, ops[..|ops| - 1], id);
    match ops[|ops| - 1]
    case Upsert(batch) => if LastIn(batch, id).Some? then LastIn(batch, id) else before
    case Delete(ids) => if id in ids then None else before
    case DeleteByService(service) =>
      if before.Some? && f.fold(before.value.service) == f.fold(service) then None else before
  }

  lemma {:induction false} FoundIsHeld(chunks: seq<Chunk>, c: Chunk)
    requires UniqueIds(chunks)
    ensures c in chunks <==> Find(chunks, c.id) == Some(c)
  {
    var p := Position(chunks, c.id);
    if c in chunks {
      var i :| 0 <= i < |chunks| && chunks[i] == c;
      assert p == i;
    }
  }

  lemma {:induction false} PositionIs(chunks: seq<Chunk>, id: string, i: nat)
    requires UniqueIds(chunks) && i < |chunks| && chunks[i].id == id
    ensures Position(chunks, id) == i
  {
    var p := Position(chunks, id);
  }

  lemma {:induction false} FindPut(chunks: seq<Chunk>, c: Chunk, id: string)
    requires UniqueIds(chunks)
    ensures UniqueIds(Put(chunks, c))
    ensures Find(Put(chunks, c), id) == if id == c.id then Some(c) else Find(chunks, id)
  {
    var p := Position(chunks, c.id);
    var put := Put(chunks, c);
    assert put[p] == c;
    if id == c.id {
      PositionIs(put, id, p);
    } else {
      var q := Position(chunks, id);
      if q < |chunks| {
        assert put[q] == chunks[q];
        PositionIs(put, id, q);
      } else {
        assert Position(put, id) >= |put|;
      }
    }
  }

  lemma {:induction false} PutAllNext(chunks: seq<Chunk>, batch: seq<Chunk>, k: nat)
    requires k < |batch|
    ensures PutAll(chunks, batch[..k + 1]) == Put(PutAll(chunks, batch[..k]), batch[k])
  {
    assert batch[..k + 1][..k] == batch[..k];
  }

  lemma {:induction false} FindPutAll(chunks: seq<Chunk>, batch: seq<Chunk>, id: string)
    requires UniqueIds(chunks)
    ensures UniqueIds(PutAll(chunks, batch))
    ensures Find(PutAll(chunks, batch), id)
            == if LastIn(batch, id).Some? then LastIn(batch, id) else Find(chunks, id)
  {
    if batch == [] {
    } else {
      FindPutAll(chunks, batch[..|batch| - 1], id);
      FindPut(PutAll(chunks, batch[..|batch| - 1]), batch[|batch| - 1], id);
    }
  }

  lemma {:induction false} KeptAreThere(keep: Chunk -> bool, chunks: seq<Chunk>, c: Chunk)
    ensures c in Keep(keep, chunks) <==> c in chunks && keep(c)
  {
    if chunks == [] {
    } else {
      KeptAreThere(keep, chunks[..|chunks| - 1], c);
      assert chunks == chunks[..|chunks| - 1] + [chunks[|chunks| - 1]];
    }
  }

  lemma {:induction false} KeepUnique(keep: Chunk -> bool, chunks: seq<Chunk>)
    requires UniqueIds(chunks)
    ensures UniqueIds(Keep(keep, chunks))
  {
    if chunks == [] {
    } else {
      var init, last := chunks[..|chunks| - 1], chunks[|chunks| - 1];
      KeepUnique(keep, init);
      forall c | c in Keep(keep, init)
        ensures c.id != last.id
      {
        KeptAreThere(keep, init, c);
        var i :| 0 <= i < |init| && init[i] == c;
        assert chunks[i].id != chunks[|chunks| - 1].id;
      }
    }
  }

  lemma {:induction false} FindKeep(keep: Chunk -> bool, chunks: seq<Chunk>, id: string)
    requires UniqueIds(chunks)
    ensures UniqueIds(Keep(keep, chunks))
    ensures var found := Find(chunks, id);
            Find(Keep(keep, chunks), id) == if found.Some? && !keep(found.value) then None else found
  {
    KeepUnique(keep, chunks);
    var kept := Keep(keep, chunks);
    match Find(chunks, id) {
      case Some(c) =>
        KeptAreThere(keep, chunks, c);
        FoundIsHeld(kept, c);
      case None =>
    }
    match Find(kept, id) {
      case Some(c) =>
        KeptAreThere(keep, chunks, c);
        FoundIsHeld(chunks, c);
      case None =>
    }
  }

  /** However the store is used, ids stay unique, and what it holds under an id is the
      last write that no later deletion covers. */
  lemma {:induction false} HoldsLastWrites(f: Folding, ops: seq<Op>, id: string)
    ensures UniqueIds(Run(f, ops))
    ensures Find(Run(f, ops), id) == LastWrite(f, ops, id)
  {
    if ops == [] {
    } else {
      var before := Run(f, ops[..|ops| - 1]);
      HoldsLastWrites(f, ops[..|ops| - 1], id);
      match ops[|ops| - 1] {
        case Upsert(batch) => FindPutAll(before, batch, id);
        case Delete(ids) => FindKeep(NotIn(ids), before, id);
        case DeleteByService(service) => FindKeep(NotOf(f, service), before, id);
      }
    }
  }

  /** The chunks held are exactly the live last writes. */
  lemma {:induction false} HeldIsLastWrite(f: Folding, ops: seq<Op>, c: Chunk)
    ensures c in Run(f, ops) <==> LastWrite(f, ops, c.id) == Some(c)
  {
    HoldsLastWrites(f, ops, c.id);
    FoundIsHeld(Run(f, ops), c);
  }

  // ---------- query words ----------

  predicate Separates(ch: char) {
    ch == ' ' || ch == ',' || ch == ';' || ch == '\U{FF0C}' || ch == '\U{3002}'
  }

  predicate NoSeparator(s: string) { forall ch :: ch in s ==> !Separates(ch) }

  predicate AllSeparators(s: string) { forall ch :: ch in s ==> Separates(ch) }

  /** The length of the run of characters before the first separator. */
  function RunLength(s: string): (n: nat)
    ensures n <= |s| && NoSeparator(s[..n]) && (n < |s| ==> Separates(s[n]))
  {
    if s == "" || Separates(s[0]) then 0 else 1 + RunLength(s[1..])
  }

  /** FieldsFunc: the maximal runs without separators. */
  function Fields(s: string): seq<string> {
    if s == "" then []
    else if Separates(s[0]) then Fields(s[1..])
    else [s[..RunLength(s)]] + Fields(s[RunLength(s)..])
  }

  /** gap, part, gap, part, ..., gap. */
  function Weave(gaps: seq<string>, parts: seq<string>): string
    requires |gaps| == |parts| + 1
  {
    if parts == [] then gaps[0] else gaps[0] + parts[0] + Weave(gaps[1..], parts[1..])
  }

  ghost predicate Splits(s: string, gaps: seq<string>, parts: seq<string>) {
    && |gaps| == |parts| + 1
    && Weave(gaps, parts) == s
    && (forall i :: 0 <= i < |gaps| ==> AllSeparators(gaps[i]))
    && (forall i :: 0 < i < |gaps| - 1 ==> gaps[i] != "")
    && (forall p :: p in parts ==> p != "" && NoSeparator(p))
  }

  /** The fields are cut at separators and nowhere else. */
  lemma {:induction false} FieldsSplit(s: string) returns (gaps: seq<string>)
    ensures Splits(s, gaps, Fields(s))
    ensures s != "" && !Separates(s[0]) ==> gaps[0] == ""
  {
    if s == "" {
      gaps := [""];
    } else if Separates(s[0]) {
      var rest := FieldsSplit(s[1..]);
      gaps := [[s[0]] + rest[0]] + rest[1..];
      assert s == [s[0]] + s[1..];
      WeaveLonger(s[0], rest, Fields(s));
    } else {
      var n := RunLength(s);
      var rest := FieldsSplit(s[n..]);
      gaps := [""] + rest;
      FieldsCons(s, n, rest);
    }
  }

  lemma {:induction false} WeaveLonger(ch: char, gaps: seq<string>, parts: seq<string>)
    requires |gaps| == |parts| + 1
    ensures Weave([[ch] + gaps[0]] + gaps[1..], parts) == [ch] + Weave(gaps, parts)
  {
    var longer := [[ch] + gaps[0]] + gaps[1..];
    if parts != [] {
      assert longer[1..] == gaps[1..];
      assert ([ch] + gaps[0]) + parts[0] + Weave(gaps[1..], parts[1..])
          == [ch] + (gaps[0] + parts[0] + Weave(gaps[1..], parts[1..]));
    }
  }

  lemma {:induction false} FieldsCons(s: string, n: nat, rest: seq<string>)
    requires 0 < n <= |s| && NoSeparator(s[..n]) && (n < |s| ==> Separates(s[n]))
    requires Splits(s[n..], rest, Fields(s[n..]))
    ensures Splits(s, [""] + rest, [s[..n]] + Fields(s[n..]))
  {
    var gaps, parts := [""] + rest, [s[..n]] + Fields(s[n..]);
    assert gaps[1..] == rest && parts[1..] == Fields(s[n..]);
    assert Weave(gaps, parts) == s[..n] + s[n..];
    assert AllSeparators("");
    if |rest| > 1 {
      assert rest[0] != "" by {
        if rest[0] == "" {
          FirstOfWeave(s[n..], rest, Fields(s[n..]));
        }
      }
    }
  }

  /** After an empty first gap the text starts with a part, hence not with a separator. */
  lemma {:induction false} FirstOfWeave(s: string, gaps: seq<string>, parts: seq<string>)
    requires Splits(s, gaps, parts) && parts != [] && gaps[0] == ""
    ensures s != "" && !Separates(s[0])
  {
    assert parts[0] in parts;
    assert s == parts[0] + Weave(gaps[1..], parts[1..]);
    assert s[0] == parts[0][0] && parts[0][0] in parts[0];
  }

  /** The words of the fields: trimmed, empty ones dropped. */
  function Words(parts: seq<string>): seq<string> {
    if parts == [] then []
    else
      var init, p := Words(parts[..|parts| - 1]), Text.Trim(parts[|parts| - 1]);
      if p != "" then init + [p] else init
  }

  function TokensOf(f: Folding, query: string): seq<string> {
    Words(Fields(f.lower(Text.Trim(query))))
  }

  method Tokenize(f: Folding, query: string) returns (words: seq<string>)
    ensures words == TokensOf(f, query)
  {
    var q := f.lower(Text.Trim(query));
    if q == "" {
      return [];
    }
    var parts := Fields(q);
    words := [];
    for i := 0 to |parts|
      invariant words == Words(parts[..i])
    {
      assert parts[..i + 1][..i] == parts[..i];
      var p := Text.Trim(parts[i]);
      if p != "" {
        words := words + [p];
      }
    }
    assert parts[..|parts|] == parts;
  }

  /** Each field gives its word, if it has one; the words follow one another as the
      fields do. */
  lemma {:induction false} WordsOfEach(xs: seq<string>, p: string, ys: seq<string>)
    ensures Words([]) == []
    ensures Words([p]) == if Text.Trim(p) == "" then [] else [Text.Trim(p)]
    ensures Words(xs + ys) == Words(xs) + Words(ys)
  {
    assert [p][..0] == [];
    if ys == [] {
      assert xs + ys == xs;
    } else {
      assert (xs + ys)[..|xs + ys| - 1] == xs + ys[..|ys| - 1];
      WordsOfEach(xs, p, ys[..|ys| - 1]);
    }
  }

  predicate Only(s: string, chars: string) { forall ch :: ch in s ==> ch in chars }

  predicate Free(s: string, chars: string) { forall ch :: ch in s ==> ch !in chars }

  /** The words of a query are those of its trimmed, lower-cased text, cut at blanks, commas
      and semicolons, and at the fullwidth comma and the ideographic full stop. */
  lemma {:induction false} QueryWords(f: Folding, query: string) returns (gaps: seq<string>, parts: seq<string>)
    ensures Splits(f.lower(Text.Trim(query)), gaps, parts)
    ensures forall gap :: gap in gaps ==> Only(gap, " ,;\U{FF0C}\U{3002}")
    ensures forall p :: p in parts ==> Free(p, " ,;\U{FF0C}\U{3002}")
    ensures TokensOf(f, query) == Words(parts)
  {
    parts := Fields(f.lower(Text.Trim(query)));
    gaps := FieldsSplit(f.lower(Text.Trim(query)));
    forall gap | gap in gaps ensures Only(gap, " ,;\U{FF0C}\U{3002}") {
      var i :| 0 <= i < |gaps| && gaps[i] == gap;
      assert AllSeparators(gap);
    }
  }

  lemma {:induction false} WordsAre(parts: seq<string>, w: string)
    ensures w in Words(parts) <==> w != "" && exists p :: p in parts && Text.Trim(p) == w
  {
    if parts == [] {
    } else {
      var init, last := parts[..|parts| - 1], parts[|parts| - 1];
      WordsAre(init, w);
      assert parts == init + [last];
      assert last in parts;
    }
  }

  // ---------- scoring ----------

  predicate Contains(s: string, word: string) { Text.Index(s, word) >= 0 }

  function Points(f: Folding, c: Chunk, word: string): nat {
    if word == "" then 0 else
    var content := if Contains(f.lower(c.content), word) then 2 else 0;
    var endpoint := if Contains(f.lower(c.endpoint), word) then 3 else 0;
    var kind := if Contains(f.lower(c.kind), word) then 1 else 0;
    content + endpoint + kind
  }

  function Score(f: Folding, c: Chunk, words: seq<string>): nat {
    if words == [] then 0 else Score(f, c, words[..|words| - 1]) + Points(f, c, words[|words| - 1])
  }

  method ScoreChunk(f: Folding, c: Chunk, words: seq<string>) returns (score: nat)
    ensures score == Score(f, c, words)
  {
    var content, endpoint := f.lower(c.content), f.lower(c.endpoint);
    score := 0;
    for i := 0 to |words|
      invariant score == Score(f, c, words[..i])
    {
      assert words[..i + 1][..i] == words[..i];
      var word := words[i];
      if word == "" {
        continue;
      }
      if Contains(content, word) {
        score := score + 2;
      }
      if Contains(endpoint, word) {
        score := score + 3;
      }
      if Contains(f.lower(c.kind), word) {
        score := score + 1;
      }
    }
    assert words[..|words|] == words;
  }

  ghost predicate OccursIn(text: string, word: string) {
    exists i :: Text.OccursAt(text, word, i)
  }

  /** A query word occurs in one of the three searched fields. */
  ghost predicate Occurs(f: Folding, c: Chunk, word: string) {
    || OccursIn(f.lower(c.content), word)
    || OccursIn(f.lower(c.endpoint), word)
    || OccursIn(f.lower(c.kind), word)
  }

  lemma {:induction false} ContainsOccurs(s: string, word: string)
    ensures Contains(s, word) <==> OccursIn(s, word)
  {
    var k := Text.Index(s, word);
    if k >= 0 {
      assert Text.OccursAt(s, word, k);
    }
  }

  lemma {:induction false} PointsOccur(f: Folding, c: Chunk, word: string)
    ensures Points(f, c, word) > 0 <==> word != "" && Occurs(f, c, word)
  {
    ContainsOccurs(f.lower(c.content), word);
    ContainsOccurs(f.lower(c.endpoint), word);
    ContainsOccurs(f.lower(c.kind), word);
  }

  lemma {:induction false} ScorePositive(f: Folding, c: Chunk, words: seq<string>)
    ensures Score(f, c, words) > 0 <==> exists w :: w in words && Points(f, c, w) > 0
  {
    if words == [] {
    } else {
      var init, last := words[..|words| - 1], words[|words| - 1];
      ScorePositive(f, c, init);
      assert words == init + [last];
      assert last in words;
    }
  }

  /** How many of the words occur in the text; a repeated word counts again. */
  ghost function Occurring(text: string, words: seq<string>): nat {
    if words == [] then 0
    else Occurring(text, words[1..]) + if OccursIn(text, words[0]) then 1 else 0
  }

  lemma {:induction false} OccurringSnoc(text: string, words: seq<string>, word: string)
    ensures Occurring(text, words + [word]) == Occurring(text, words) + Occurring(text, [word])
  {
    if words == [] {
      assert [] + [word] == [word] && [word][1..] == [];
    } else {
      assert (words + [word])[0] == words[0] && (words + [word])[1..] == words[1..] + [word];
      OccurringSnoc(text, words[1..], word);
    }
  }

  /** Two for each word in the content, three for each in the endpoint and one for each
      in the type. */
  ghost function Weight(f: Folding, c: Chunk, words: seq<string>): nat {
    2 * Occurring(f.lower(c.content), words) + 3 * Occurring(f.lower(c.endpoint), words)
    + Occurring(f.lower(c.kind), words)
  }

  lemma {:induction false} ScoreCounts(f: Folding, c: Chunk, words: seq<string>)
    requires "" !in words
    ensures Score(f, c, words) == Weight(f, c, words)
  {
    if words == [] {
    } else {
      var init, last := words[..|words| - 1], words[|words| - 1];
      assert words == init + [last] && [last][1..] == [] && last in words;
      ScoreCounts(f, c, init);
      OccurringSnoc(f.lower(c.content), init, last);
      OccurringSnoc(f.lower(c.endpoint), init, last);
      OccurringSnoc(f.lower(c.kind), init, last);
      ContainsOccurs(f.lower(c.content), last);
      ContainsOccurs(f.lower(c.endpoint), last);
      ContainsOccurs(f.lower(c.kind), last);
    }
  }

  // ---------- searching ----------

  datatype SearchResult = SearchResult(chunk: Chunk, score: nat, metadata: map<string, string>)

  function ResultKey(r: SearchResult): Key { Key(r.score, r.chunk.endpoint) }

  function ResultOf(f: Folding, c: Chunk, words: seq<string>): SearchResult {
    SearchResult(c, Score(f, c, words), map["service" := c.service])
  }

  function ServiceFilter(filters: map<string, string>): string {
    if "service" in filters then filters["service"] else ""
  }

  predicate ServiceAllows(f: Folding, c: Chunk, service: string) {
    service == "" || f.fold(c.service) == f.fold(service)
  }

  predicate IsHit(f: Folding, c: Chunk, words: seq<string>, service: string) {
    ServiceAllows(f, c, service) && Score(f, c, words) > 0
  }

  function Hits(f: Folding, chunks: seq<Chunk>, words: seq<string>, service: string): seq<SearchResult> {
    if chunks == [] then []
    else
      var init, c := Hits(f, chunks[..|chunks| - 1], words, service), chunks[|chunks| - 1];
      if IsHit(f, c, words, service) then init + [ResultOf(f, c, words)] else init
  }

  function Limit(topK: int, n: nat): nat { if topK <= 0 || topK > n then n else topK }

  /** The answers a search may give: the first topK of a sort of the hits. */
  ghost predicate Answers(f: Folding, chunks: seq<Chunk>, query: string, topK: int, filters: map<string, string>,
                          sorted: seq<SearchResult>, results: seq<SearchResult>) {
    && IsSortOf(ResultKey, sorted, Hits(f, chunks, TokensOf(f, query), ServiceFilter(filters)))
    && results == sorted[..Limit(topK, |sorted|)]
  }

  ghost predicate IsAnswer(f: Folding, chunks: seq<Chunk>, query: string, topK: int, filters: map<string, string>,
                           results: seq<SearchResult>) {
    exists sorted :: Answers(f, chunks, query, topK, filters, sorted, results)
  }

  lemma {:induction false} AnswerGiven(f: Folding, chunks: seq<Chunk>, query: string, topK: int,
                                       filters: map<string, string>, sorted: seq<SearchResult>,
                                       results: seq<SearchResult>)
    requires Answers(f, chunks, query, topK, filters, sorted, results)
    ensures IsAnswer(f, chunks, query, topK, filters, results)
  {
  }

  lemma {:induction false} HitsAre(f: Folding, chunks: seq<Chunk>, words: seq<string>, service: string, r: SearchResult)
    ensures r in Hits(f, chunks, words, service)
            <==> r.chunk in chunks && IsHit(f, r.chunk, words, service) && r == ResultOf(f, r.chunk, words)
  {
    if chunks == [] {
    } else {
      var init, last := chunks[..|chunks| - 1], chunks[|chunks| - 1];
      HitsAre(f, init, words, service, r);
      assert chunks == init + [last];
    }
  }

  ghost predicate UniqueResults(results: seq<SearchResult>) {
    forall i, j :: 0 <= i < j < |results| ==> results[i].chunk.id != results[j].chunk.id
  }

  lemma {:induction false} HitsUnique(f: Folding, chunks: seq<Chunk>, words: seq<string>, service: string)
    requires UniqueIds(chunks)
    ensures UniqueResults(Hits(f, chunks, words, service))
  {
    if chunks == [] {
    } else {
      var init, last := chunks[..|chunks| - 1], chunks[|chunks| - 1];
      HitsUnique(f, init, words, service);
      forall r | r in Hits(f, init, words, service)
        ensures r.chunk.id != last.id
      {
        HitsAre(f, init, words, service, r);
        var i :| 0 <= i < |init| && init[i] == r.chunk;
        assert chunks[i].id != chunks[|chunks| - 1].id;
      }
    }
  }

  /** Reordering results with distinct ids leaves them distinct. */
  lemma {:induction false} SortUnique(sorted: seq<SearchResult>, hits: seq<SearchResult>)
    requires multiset(sorted) == multiset(hits) && UniqueResults(hits)
    ensures UniqueResults(sorted)
  {
    forall i, j | 0 <= i < j < |sorted|
      ensures sorted[i].chunk.id != sorted[j].chunk.id
    {
      var x, y := sorted[i], sorted[j];
      assert x in multiset(sorted) && y in multiset(sorted);
      var a :| 0 <= a < |hits| && hits[a] == x;
      var b :| 0 <= b < |hits| && hits[b] == y;
      if x == y {
        CountTwice(sorted, i, j);
        CountOnce(hits, a);
      }
    }
  }

  lemma {:induction false} CountTwice<T>(s: seq<T>, i: nat, j: nat)
    requires i < j < |s| && s[i] == s[j]
    ensures multiset(s)[s[i]] >= 2
  {
    RemovedLess(s, j);
    assert Removed(s, j)[i] == s[i];
    assert s[i] in multiset(Removed(s, j));
  }

  lemma {:induction false} CountOnce(s: seq<SearchResult>, i: nat)
    requires i < |s| && UniqueResults(s)
    ensures multiset(s)[s[i]] == 1
  {
    RemovedLess(s, i);
    assert s[i] !in Removed(s, i);
  }

  /** A word of the query occurs in the chunk, and if a service is asked for it is its own. */
  ghost predicate Relevant(f: Folding, c: Chunk, query: string, filters: map<string, string>) {
    && ("service" in filters && filters["service"] != "" ==> f.fold(c.service) == f.fold(filters["service"]))
    && exists w :: w in TokensOf(f, query) && Occurs(f, c, w)
  }

  lemma {:induction false} RelevantIsHit(f: Folding, c: Chunk, query: string, filters: map<string, string>)
    ensures Relevant(f, c, query, filters) <==> IsHit(f, c, TokensOf(f, query), ServiceFilter(filters))
  {
    var words := TokensOf(f, query);
    ScorePositive(f, c, words);
    forall w | w in words
      ensures Points(f, c, w) > 0 <==> Occurs(f, c, w)
    {
      PointsOccur(f, c, w);
      WordsAre(Fields(f.lower(Text.Trim(query))), w);
    }
  }

  /** What a search returns: relevant chunks of the store under their scores, each once. */
  lemma {:induction false} ResultsAreRelevant(f: Folding, chunks: seq<Chunk>, query: string, topK: int,
                                              filters: map<string, string>, sorted: seq<SearchResult>,
                                              results: seq<SearchResult>)
    requires UniqueIds(chunks) && Answers(f, chunks, query, topK, filters, sorted, results)
    ensures UniqueResults(results) && Ranked(Keys(ResultKey, results))
    ensures forall r :: r in results ==>
              r.chunk in chunks && Relevant(f, r.chunk, query, filters) && r == ResultOf(f, r.chunk, TokensOf(f, query))
  {
    var words, service := TokensOf(f, query), ServiceFilter(filters);
    var hits := Hits(f, chunks, words, service);
    HitsUnique(f, chunks, words, service);
    SortUnique(sorted, hits);
    RankedPrefix(Keys(ResultKey, sorted), Keys(ResultKey, results));
    forall r | r in results
      ensures r.chunk in chunks && Relevant(f, r.chunk, query, filters) && r == ResultOf(f, r.chunk, words)
    {
      assert r in multiset(sorted);
      HitsAre(f, chunks, words, service, r);
      RelevantIsHit(f, r.chunk, query, filters);
    }
  }

  lemma {:induction false} RankedPrefix(ks: seq<Key>, prefix: seq<Key>)
    requires Ranked(ks) && prefix <= ks
    ensures Ranked(prefix)
  {
    assert forall i :: 0 <= i < |prefix| ==> prefix[i] == ks[i];
  }

  /** What it leaves out: nothing relevant unless topK results are returned, and then
      nothing that ranks above any of them. */
  lemma {:induction false} OmittedRankLower(f: Folding, chunks: seq<Chunk>, query: string, topK: int,
                                            filters: map<string, string>, sorted: seq<SearchResult>,
                                            results: seq<SearchResult>, c: Chunk)
    requires Answers(f, chunks, query, topK, filters, sorted, results)
    requires c in chunks && Relevant(f, c, query, filters)
    ensures var r := ResultOf(f, c, TokensOf(f, query));
            r !in results ==>
              && 0 < topK == |results|
              && forall s :: s in results ==> !Outranks(ResultKey(r), ResultKey(s))
  {
    var words, service := TokensOf(f, query), ServiceFilter(filters);
    var hits := Hits(f, chunks, words, service);
    var r := ResultOf(f, c, words);
    RelevantIsHit(f, c, query, filters);
    HitsAre(f, chunks, words, service, r);
    assert r in multiset(hits);
    var j :| 0 <= j < |sorted| && sorted[j] == r;
    if r !in results {
      forall s | s in results
        ensures !Outranks(ResultKey(r), ResultKey(s))
      {
        var i :| 0 <= i < |results| && results[i] == s;
        assert !Outranks(Keys(ResultKey, sorted)[j], Keys(ResultKey, sorted)[i]);
      }
    }
  }

  /** Two answers to the same query differ at most in the order of equal scores and endpoints. */
  lemma {:induction false} AnswersAgree(f: Folding, chunks: seq<Chunk>, query: string, topK: int,
                                        filters: map<string, string>,
                                        s: seq<SearchResult>, a: seq<SearchResult>,
                                        t: seq<SearchResult>, b: seq<SearchResult>)
    requires Answers(f, chunks, query, topK, filters, s, a) && Answers(f, chunks, query, topK, filters, t, b)
    ensures Keys(ResultKey, a) == Keys(ResultKey, b)
  {
    var hits := Hits(f, chunks, TokensOf(f, query), ServiceFilter(filters));
    SortsAgree(ResultKey, s, t, hits);
    assert Keys(ResultKey, a) == Keys(ResultKey, s)[..Limit(topK, |s|)];
    assert Keys(ResultKey, b) == Keys(ResultKey, t)[..Limit(topK, |t|)];
  }

  /** The higher score first, and among equal scores the earlier endpoint. */
  ghost predicate BestFirst(results: seq<SearchResult>) {
    forall i, j :: 0 <= i < j < |results| ==> NotAfter(results[i], results[j].score, results[j].chunk.endpoint)
  }

  ghost predicate NotAfter(r: SearchResult, score: nat, endpoint: string) {
    r.score >= score && (r.score == score ==> !Before(endpoint, r.chunk.endpoint))
  }

  lemma {:induction false} NotOutranked(r: SearchResult, k: Key)
    ensures !Outranks(k, ResultKey(r)) <==> NotAfter(r, k.score, k.endpoint)
  {
    OutranksExactly(k, ResultKey(r));
  }

  /** Live last writes that are relevant, each with its weight, every id once, best first. */
  ghost predicate ListsLive(f: Folding, ops: seq<Op>, query: string, filters: map<string, string>,
                            results: seq<SearchResult>) {
    && UniqueResults(results) && BestFirst(results)
    && forall r :: r in results ==>
         && LastWrite(f, ops, r.chunk.id) == Some(r.chunk) && Relevant(f, r.chunk, query, filters)
         && r.score == Weight(f, r.chunk, TokensOf(f, query)) && r.metadata == map["service" := r.chunk.service]
  }

  /** No more than topK if that is positive; and then a relevant live chunk is missing only
      for topK others none of which comes after it. */
  ghost predicate MissesNoneBetter(f: Folding, ops: seq<Op>, query: string, topK: int, filters: map<string, string>,
                                   results: seq<SearchResult>) {
    && (topK > 0 ==> |results| <= topK)
    && forall c: Chunk :: LastWrite(f, ops, c.id) == Some(c) && Relevant(f, c, query, filters) ==>
         Listed(c, results)
         || (0 < topK == |results|
             && forall s :: s in results ==> NotAfter(s, Weight(f, c, TokensOf(f, query)), c.endpoint))
  }

  ghost predicate Listed(c: Chunk, results: seq<SearchResult>) {
    exists r :: r in results && r.chunk == c
  }

  lemma {:induction false} RankedIsBestFirst(results: seq<SearchResult>)
    requires Ranked(Keys(ResultKey, results))
    ensures BestFirst(results)
  {
    forall i, j | 0 <= i < j < |results|
      ensures NotAfter(results[i], results[j].score, results[j].chunk.endpoint)
    {
      assert !Outranks(Keys(ResultKey, results)[j], Keys(ResultKey, results)[i]);
      NotOutranked(results[i], ResultKey(results[j]));
    }
  }

  lemma {:induction false} ScoreIsWeight(f: Folding, c: Chunk, query: string)
    ensures Score(f, c, TokensOf(f, query)) == Weight(f, c, TokensOf(f, query))
  {
    WordsAre(Fields(f.lower(Text.Trim(query))), "");
    ScoreCounts(f, c, TokensOf(f, query));
  }

  /** End to end: what a search answers after any use of the store, in terms of the
      history alone. */
  lemma {:induction false} SearchOverRun(f: Folding, ops: seq<Op>, query: string, topK: int,
                                         filters: map<string, string>, sorted: seq<SearchResult>,
                                         results: seq<SearchResult>)
    requires Answers(f, Run(f, ops), query, topK, filters, sorted, results)
    ensures ListsLive(f, ops, query, filters, results)
    ensures MissesNoneBetter(f, ops, query, topK, filters, results)
  {
    var chunks := Run(f, ops);
    HoldsLastWrites(f, ops, "");
    ResultsAreRelevant(f, chunks, query, topK, filters, sorted, results);
    RankedIsBestFirst(results);
    forall r | r in results
      ensures LastWrite(f, ops, r.chunk.id) == Some(r.chunk)
      ensures r.score == Weight(f, r.chunk, TokensOf(f, query))
    {
      HeldIsLastWrite(f, ops, r.chunk);
      ScoreIsWeight(f, r.chunk, query);
    }
    forall c: Chunk | LastWrite(f, ops, c.id) == Some(c) && Relevant(f, c, query, filters)
      ensures Listed(c, results)
              || (0 < topK == |results|
                  && forall s :: s in results ==> NotAfter(s, Weight(f, c, TokensOf(f, query)), c.endpoint))
    {
      OmittedComesLater(f, ops, query, topK, filters, sorted, results, c);
    }
  }

  lemma {:induction false} OmittedComesLater(f: Folding, ops: seq<Op>, query: string, topK: int,
                                             filters: map<string, string>, sorted: seq<SearchResult>,
                                             results: seq<SearchResult>, c: Chunk)
    requires Answers(f, Run(f, ops), query, topK, filters, sorted, results)
    requires LastWrite(f, ops, c.id) == Some(c) && Relevant(f, c, query, filters)
    ensures Listed(c, results)
            || (0 < topK == |results|
                && forall s :: s in results ==> NotAfter(s, Weight(f, c, TokensOf(f, query)), c.endpoint))
  {
    var r := ResultOf(f, c, TokensOf(f, query));
    HeldIsLastWrite(f, ops, c);
    OmittedRankLower(f, Run(f, ops), query, topK, filters, sorted, results, c);
    if r in results {
      assert r.chunk == c;
    } else {
      ScoreIsWeight(f, c, query);
      forall s | s in results
        ensures NotAfter(s, Weight(f, c, TokensOf(f, query)), c.endpoint)
      {
        NotOutranked(s, ResultKey(r));
      }
    }
  }

  // ---------- the store ----------

  /** The index Upsert builds: every id held, with its position. */
  ghost predicate Indexed(index: map<string, nat>, chunks: seq<Chunk>) {
    forall id :: if id in index then Position(chunks, id) == index[id] < |chunks| else Position(chunks, id) == |chunks|
  }

  lemma {:induction false} IndexAppended(index: map<string, nat>, chunks: seq<Chunk>, c: Chunk)
    requires Indexed(index, chunks) && Position(chunks, c.id) == |chunks|
    ensures Indexed(index[c.id := |chunks|], chunks + [c])
  {
    var more := index[c.id := |chunks|];
    forall id
      ensures var p := Position(chunks + [c], id);
              if id in more then p == more[id] <= |chunks| else p == |chunks| + 1
    {
      PositionAppended(chunks, c, id);
    }
  }

  lemma {:induction false} PositionIsFirst(chunks: seq<Chunk>, id: string, p: nat)
    requires p <= |chunks| && (forall i :: 0 <= i < p ==> chunks[i].id != id)
    requires p < |chunks| ==> chunks[p].id == id
    ensures Position(chunks, id) == p
  {
    var q := Position(chunks, id);
  }

  lemma {:induction false} PositionAppended(chunks: seq<Chunk>, c: Chunk, id: string)
    ensures var p := Position(chunks, id);
            Position(chunks + [c], id) == if p < |chunks| then p else if id == c.id then p else p + 1
  {
    var p := Position(chunks, id);
    PositionIsFirst(chunks + [c], id, if p < |chunks| || id == c.id then p else p + 1);
  }

  lemma {:induction false} IndexReplaced(index: map<string, nat>, chunks: seq<Chunk>, p: nat, c: Chunk)
    requires Indexed(index, chunks) && p < |chunks| && chunks[p].id == c.id
    ensures Indexed(index, chunks[p := c])
  {
    forall id
      ensures Position(chunks[p := c], id) == Position(chunks, id)
    {
      PositionIsFirst(chunks[p := c], id, Position(chunks, id));
    }
  }

  method IdSet(ids: seq<string>) returns (idSet: set<string>)
    ensures forall id :: id in idSet <==> id in ids
  {
    idSet := {};
    for i := 0 to |ids|
      invariant forall id :: id in idSet <==> id in ids[..i]
    {
      idSet := idSet + {ids[i]};
    }
    assert ids[..|ids|] == ids;
  }

  class MemoryStore {
    const folding: Folding
    var slots: array<Chunk>
    var count: nat
    /** Every change made so far. */
    ghost var history: seq<Op>

    ghost predicate Fits()
      reads this
    {
      count <= slots.Length
    }

    ghost function Contents(): seq<Chunk>
      requires Fits()
      reads this, slots
    {
      slots[..count]
    }

    ghost predicate Valid()
      reads this, slots
    {
      Fits() && Contents() == Run(folding, history)
    }

    constructor (folding: Folding)
      ensures Valid() && fresh(slots) && history == [] && this.folding == folding
    {
      this.folding := folding;
      slots := new Chunk[0];
      count := 0;
      history := [];
    }

    /** append: in place while there is room, else into a larger array. */
    method Push(c: Chunk)
      requires Fits()
      modifies this`slots, this`count, slots
      ensures Fits() && (slots == old(slots) || fresh(slots))
      ensures Contents() == old(Contents()) + [c]
    {
      if count == slots.Length {
        var larger := new Chunk[2 * count + 1];
        forall i | 0 <= i < count {
          larger[i] := slots[i];
        }
        slots := larger;
      }
      slots[count] := c;
      count := count + 1;
    }

    method BuildIndex() returns (index: map<string, nat>)
      requires Fits() && UniqueIds(Contents())
      ensures Indexed(index, Contents())
    {
      index := map[];
      for i := 0 to count
        invariant Indexed(index, slots[..i])
      {
        ghost var seen := slots[..i];
        PositionIsFirst(seen, slots[i].id, i);
        IndexAppended(index, seen, slots[i]);
        assert seen + [slots[i]] == slots[..i + 1];
        index := index[slots[i].id := i];
      }
    }

    /** One chunk of the batch; the index follows what is held. */
    method UpsertOne(index: map<string, nat>, chunk: Chunk) returns (updated: map<string, nat>)
      requires Fits() && Indexed(index, Contents())
      modifies this`slots, this`count, slots
      ensures Fits() && (slots == old(slots) || fresh(slots))
      ensures Contents() == Put(old(Contents()), chunk)
      ensures Indexed(updated, Contents())
    {
      ghost var held := Contents();
      assert chunk.id in index <==> Position(held, chunk.id) < |held|;
      if chunk.id in index {
        IndexReplaced(index, held, index[chunk.id], chunk);
        slots[index[chunk.id]] := chunk;
        assert Contents() == held[index[chunk.id] := chunk];
        return index;
      }
      IndexAppended(index, held, chunk);
      updated := index[chunk.id := count];
      Push(chunk);
    }

    method Upsert(chunks: seq<Chunk>)
      requires Valid()
      modifies this, slots
      ensures Valid() && (slots == old(slots) || fresh(slots))
      ensures history == old(history) + [Op.Upsert(chunks)]
      ensures Contents() == PutAll(old(Contents()), chunks)
    {
      ghost var before := Contents();
      assert UniqueIds(before) by {
        HoldsLastWrites(folding, history, "");
      }
      var index: map<string, nat> := BuildIndex();
      for k := 0 to |chunks|
        invariant Fits() && (slots == old(slots) || fresh(slots)) && history == old(history)
        invariant Contents() == PutAll(before, chunks[..k])
        invariant Indexed(index, Contents())
      {
        PutAllNext(before, chunks, k);
        index := UpsertOne(index, chunks[k]);
      }
      assert chunks[..|chunks|] == chunks;
      RunSnoc(folding, history, Op.Upsert(chunks));
      history := history + [Op.Upsert(chunks)];
    }

    /** Moves the chunks to keep to the front, reading ahead of where it writes. */
    method Compact(keep: Chunk -> bool)
      requires Fits()
      modifies this`count, slots
      ensures Fits() && Contents() == Keep(keep, old(Contents()))
    {
      ghost var before := Contents();
      var kept := 0;
      for i := 0 to count
        invariant kept <= i && Fits() && count == old(count)
        invariant slots[..kept] == Keep(keep, before[..i])
        invariant forall j :: i <= j < count ==> slots[j] == before[j]
      {
        var chunk := slots[i];
        assert before[..i + 1][..i] == before[..i];
        if keep(chunk) {
          slots[kept] := chunk;
          kept := kept + 1;
        }
      }
      assert before[..count] == before;
      count := kept;
    }

    method Delete(ids: seq<string>)
      requires Valid()
      modifies this, slots
      ensures Valid() && slots == old(slots)
      ensures history == old(history) + [Op.Delete(ids)]
      ensures Contents() == Keep(NotIn(ids), old(Contents()))
    {
      RunSnoc(folding, history, Op.Delete(ids));
      history := history + [Op.Delete(ids)];
      if |ids| == 0 {
        KeepAll(NotIn(ids), Contents());
        return;
      }
      var idSet := IdSet(ids);
      KeepSame(idSet, ids, Contents());
      Compact(Outside(idSet));
    }

    method DeleteByService(service: string)
      requires Valid()
      modifies this, slots
      ensures Valid() && slots == old(slots)
      ensures history == old(history) + [Op.DeleteByService(service)]
      ensures Contents() == Keep(NotOf(folding, service), old(Contents()))
    {
      RunSnoc(folding, history, Op.DeleteByService(service));
      history := history + [Op.DeleteByService(service)];
      Compact(NotOf(folding, service));
    }

    /** The chunks that pass the filter and score, with their scores. */
    method FindHits(words: seq<string>, service: string) returns (scored: seq<SearchResult>)
      requires Fits()
      ensures scored == Hits(folding, Contents(), words, service)
    {
      ghost var chunks := Contents();
      scored := [];
      for i := 0 to count
        invariant scored == Hits(folding, chunks[..i], words, service)
      {
        assert chunks[..i + 1][..i] == chunks[..i];
        var chunk := slots[i];
        if service != "" && folding.fold(chunk.service) != folding.fold(service) {
          continue;
        }
        var score := ScoreChunk(folding, chunk, words);
        if score == 0 {
          continue;
        }
        scored := scored + [SearchResult(chunk, score, map["service" := chunk.service])];
      }
      assert chunks[..count] == chunks;
    }

    /** The sort may order equal keys as it likes. */
    method Search(query: string, topK: int, filters: map<string, string>) returns (results: seq<SearchResult>)
      requires Valid()
      ensures IsAnswer(folding, Contents(), query, topK, filters, results)
      ensures ListsLive(folding, history, query, filters, results)
      ensures MissesNoneBetter(folding, history, query, topK, filters, results)
    {
      ghost var chunks := Contents();
      var words := Tokenize(folding, query);
      if |words| == 0 {
        NoWordsNoHits(folding, chunks, ServiceFilter(filters));
        assert IsSortOf(ResultKey, [], Hits(folding, chunks, words, ServiceFilter(filters)));
        results := [];
        AnswerGiven(folding, chunks, query, topK, filters, results, results);
        SearchOverRun(folding, history, query, topK, filters, results, results);
        return;
      }
      var service := "";
      if "service" in filters {
        service := filters["service"];
      }
      var scored := FindHits(words, service);
      ghost var some := SortExists(ResultKey, scored);
      var ranked: seq<SearchResult> :| IsSortOf(ResultKey, ranked, scored);
      var k := topK;
      if k <= 0 || k > |ranked| {
        k := |ranked|;
      }
      results := ranked[..k];
      AnswerGiven(folding, chunks, query, topK, filters, ranked, results);
      SearchOverRun(folding, history, query, topK, filters, ranked, results);
    }
  }

  lemma {:induction false} NoWordsNoHits(f: Folding, chunks: seq<Chunk>, service: string)
    ensures Hits(f, chunks, [], service) == []
  {
    if chunks == [] {
    } else {
      NoWordsNoHits(f, chunks[..|chunks| - 1], service);
    }
  }

  lemma {:induction false} KeepAll(keep: Chunk -> bool, chunks: seq<Chunk>)
    requires forall c :: c in chunks ==> keep(c)
    ensures Keep(keep, chunks) == chunks
  {
    if chunks == [] {
    } else {
      var init, last := chunks[..|chunks| - 1], chunks[|chunks| - 1];
      assert chunks == init + [last] && last in chunks;
      KeepAll(keep, init);
    }
  }

  lemma {:induction false} KeepSame(idSet: set<string>, ids: seq<string>, chunks: seq<Chunk>)
    requires forall id :: id in idSet <==> id in ids
    ensures Keep(Outside(idSet), chunks) == Keep(NotIn(ids), chunks)
  {
    if chunks == [] {
    } else {
      KeepSame(idSet, ids, chunks[..|chunks| - 1]);
    }
  }

  lemma {:induction false} RunSnoc(f: Folding, ops: seq<Op>, op: Op)
    ensures Run(f, ops + [op]) == After(f, Run(f, ops), op)
  {
    assert (ops + [op])[..|ops|] == ops;
  }
}
