/** Collection of example sentences for an expression from the Sketch Engine
    concordance API. Each HTTP answer is supplied as a `Response` value; the
    fetcher keeps the token numbers it has accepted in `seenToknums`, which
    lives as long as the fetcher and is never cleared. */
module SentenceFetcher {
  import opened Wrappers
  import opened PyStr
  import opened Store

  /** One text fragment of a concordance line; `str` may be missing. */
  datatype Fragment = Fragment(str: Option<string>)

  /** One concordance line; every key may be missing from the JSON object. */
  datatype Line = Line(
    left: Option<seq<Fragment>>,
    kwic: Option<seq<Fragment>>,
    right: Option<seq<Fragment>>,
    toknum: Option<int>,
    refs: Option<seq<string>>)

  /** What one call of `fetch_data` yields: a list of lines, the
      `{"Lines": None}` the retry policy returns once its attempts are used
      up, a JSON object without `Lines`, or a raised request error. */
  datatype Response =
    | Page(lines: seq<Line>)
    | NullLines
    | MissingLines
    | RequestError

  /** The parameters of a concordance request that vary; the others are constants. */
  datatype Request = Request(corpname: string, q: string, fromp: int, pagesize: int)

  const PAGE_SIZE := 20000
  const SOURCE_LABEL := "Sketch Engine"
  const EXCLUDED_GENRES: set<string> := {"reference/encyclopedia", "news", "legal"}

  /** The parameters of one `fetch_sentences` call that the filters use. */
  datatype Target = Target(expressionId: int, minWords: int, maxWords: int)

  // ---------------------------------------------------------------- query

  /** The CQL clause matching one word case-insensitively. */
  function Clause(word: string): string {
    "[lc=\"" + word + "\"]"
  }

  function Clauses(words: seq<string>): (cs: seq<string>)
    ensures |cs| == |words|
    ensures forall i :: 0 <= i < |words| ==> cs[i] == Clause(words[i])
  {
    seq(|words|, i requires 0 <= i < |words| => Clause(words[i]))
  }

  /** The concordance query for an expression. */
  function BuildQuery(expression: string): (q: string)
    ensures q != [] && q[0] == 'q'
  {
    "q" + Join(Clauses(Words(expression)), " ")
  }

  /** After its leading `q`, the query consists of one `[lc="w"]` clause per
      whitespace-separated word of the expression, in order, separated by
      whitespace. */
  lemma QueryClauses(expression: string)
    ensures Words(BuildQuery(expression)[1..]) == Clauses(Words(expression))
  {
    var words := Words(expression);
    var cs := Clauses(words);
    forall k | 0 <= k < |cs| ensures cs[k] != [] && NoSpace(cs[k]) {
      var w := words[k];
      assert cs[k] == "[lc=\"" + w + "\"]";
      forall i | 0 <= i < |cs[k]| ensures !IsSpace(cs[k][i]) {
        if 5 <= i < 5 + |w| {
          assert cs[k][i] == w[i - 5];
        }
      }
    }
    WordsOfJoin(cs);
    assert BuildQuery(expression)[1..] == Join(cs, " ");
  }

  // ------------------------------------------------------ line contents

  /** The `str` of each fragment, empty where it is missing. */
  function Texts(fragments: seq<Fragment>): (ts: seq<string>)
    ensures |ts| == |fragments|
    ensures forall i :: 0 <= i < |fragments| ==> ts[i] == fragments[i].str.GetOr("")
  {
    seq(|fragments|, i requires 0 <= i < |fragments| => fragments[i].str.GetOr(""))
  }

  /** The fragments of a line: left context, match, right context. */
  function Fragments(line: Line): seq<Fragment> {
    line.left.GetOr([]) + line.kwic.GetOr([]) + line.right.GetOr([])
  }

  /** The sentence of a line: its fragment texts joined by single spaces,
      sentence markers deleted, surrounding whitespace trimmed. */
  function SentenceOf(line: Line): (s: string)
    ensures s == [] || (!IsSpace(s[0]) && !IsSpace(s[|s| - 1]))
  {
    Strip(RemoveAll(RemoveAll(Join(Texts(Fragments(line)), " "), "<s>"), "</s>"))
  }

  /** The number of whitespace-separated words of a line's sentence. */
  function WordCount(line: Line): nat {
    |Words(SentenceOf(line))|
  }

  /** Trimming the sentence does not change its word count. */
  lemma WordCountIgnoresTrim(line: Line)
    ensures WordCount(line) ==
            |Words(RemoveAll(RemoveAll(Join(Texts(Fragments(line)), " "), "<s>"), "</s>"))|
  {
    WordsOfStrip(RemoveAll(RemoveAll(Join(Texts(Fragments(line)), " "), "<s>"), "</s>"));
  }

  /** A line's token number, 0 when missing. */
  function TokenOf(line: Line): int {
    line.toknum.GetOr(0)
  }

  // ------------------------------------------------------------ metadata

  /** The key of a `key=value` reference: the text before the first `=`,
      or the whole item when it holds no `=`. */
  function RefKey(item: string): (k: string)
    ensures '=' !in k
    ensures |k| <= |item| && k == item[..|k|]
    ensures |k| == |item| || item[|k|] == '='
  {
    SplitOn(item, '=')[0]
  }

  /** The value of a `key=value` reference: only the text between the first
      and the second `=`, and empty when the item holds no `=`. */
  function RefValue(item: string): (v: string)
    ensures '=' !in item ==> v == ""
    ensures '=' !in v
    ensures '=' in item ==>
              var start := |RefKey(item)| + 1;
              && start + |v| <= |item|
              && v == item[start..start + |v|]
              && (start + |v| == |item| || item[start + |v|] == '=')
  {
    if '=' in item then
      SplitOnSecond(item, '=');
      FirstPieceOfSuffix(item, '=', IndexOf(item, '=') + 1);
      SplitOn(item, '=')[1]
    else ""
  }

  /** The metadata dictionary built from a line's references; a later item
      with the same key overwrites an earlier one. */
  function ParseRefs(refs: seq<string>): map<string, string> {
    if refs == [] then map[]
    else ParseRefs(refs[..|refs| - 1])[RefKey(refs[|refs| - 1]) := RefValue(refs[|refs| - 1])]
  }

  /** The keys of a run of items are those of all but the last, plus the
      last one's. */
  lemma ItemKeysSnoc(init: seq<string>, last: string)
    ensures (set i | 0 <= i < |init + [last]| :: RefKey((init + [last])[i])) ==
            (set i | 0 <= i < |init| :: RefKey(init[i])) + {RefKey(last)}
  {
    var refs := init + [last];
    var all := set i | 0 <= i < |refs| :: RefKey(refs[i]);
    var front := set i | 0 <= i < |init| :: RefKey(init[i]);
    forall k | k in all ensures k in front + {RefKey(last)} {
      var i :| 0 <= i < |refs| && RefKey(refs[i]) == k;
      if i < |init| {
        assert RefKey(init[i]) == k;
      }
    }
    forall k | k in front ensures k in all {
      var i :| 0 <= i < |init| && RefKey(init[i]) == k;
      assert RefKey(refs[i]) == k;
    }
    assert RefKey(refs[|refs| - 1]) in all;
  }

  /** The keys of the dictionary are exactly the keys of the items. */
  lemma {:induction false} ParseRefsKeys(refs: seq<string>)
    ensures ParseRefs(refs).Keys == set i | 0 <= i < |refs| :: RefKey(refs[i])
  {
    if refs != [] {
      var init := refs[..|refs| - 1];
      ParseRefsKeys(init);
      ItemKeysSnoc(init, refs[|refs| - 1]);
      assert init + [refs[|refs| - 1]] == refs;
    }
  }

  /** A key maps to the value of the last item carrying it. */
  lemma {:induction false} ParseRefsLastWins(refs: seq<string>, i: nat)
    requires i < |refs|
    requires forall j :: i < j < |refs| ==> RefKey(refs[j]) != RefKey(refs[i])
    ensures RefKey(refs[i]) in ParseRefs(refs)
    ensures ParseRefs(refs)[RefKey(refs[i])] == RefValue(refs[i])
  {
    if i < |refs| - 1 {
      var init := refs[..|refs| - 1];
      ParseRefsLastWins(init, i);
    }
  }

  /** Python's `d.get(key, default)`. */
  function Get(m: map<string, string>, key: string, default: string): string {
    if key in m then m[key] else default
  }

  function Metadata(line: Line): map<string, string> {
    ParseRefs(line.refs.GetOr([]))
  }

  /** The lower-cased `Genre` value, empty when there is none. */
  function GenreOf(line: Line): string {
    Lower(Get(Metadata(line), "Genre", ""))
  }

  /** The row stored for an accepted line. */
  function RecordOf(line: Line, expressionId: int, corpusName: string): OriginalSentence {
    var metadata := Metadata(line);
    OriginalSentence(
      expressionId, SentenceOf(line), TokenOf(line), corpusName, SOURCE_LABEL,
      Get(metadata, "Website (e.g. cnn.com)", ""),
      Get(metadata, "Title", ""),
      Get(metadata, "Crawl date", ""),
      Get(metadata, "URL", ""),
      Get(metadata, "Topic", ""),
      GenreOf(line))
  }

  // ------------------------------------------------- filtering and pools

  /** A line is taken when its token is unseen, its genre is not excluded
      and its word count lies in the inclusive range. */
  predicate Accepts(line: Line, seen: set<int>, t: Target) {
    && TokenOf(line) !in seen
    && GenreOf(line) !in EXCLUDED_GENRES
    && t.minWords <= WordCount(line) <= t.maxWords
  }

  /** The sentences gathered so far and the token numbers seen so far. */
  datatype Harvest = Harvest(pool: seq<OriginalSentence>, seen: set<int>)

  /** The inner loop over the lines of one page. */
  function CollectPage(lines: seq<Line>, h: Harvest, t: Target, corpusName: string): Harvest
  {
    if lines == [] then h
    else
      Step(CollectPage(lines[..|lines| - 1], h, t, corpusName), lines[|lines| - 1], t, corpusName)
  }

  /** The pages among `responses`, processed in order; the other responses
      leave the harvest as it is. */
  function CollectAll(responses: seq<Response>, h: Harvest, t: Target, corpusName: string): Harvest
  {
    if responses == [] then h
    else
      var before := CollectAll(responses[..|responses| - 1], h, t, corpusName);
      match responses[|responses| - 1]
      case Page(lines) => CollectPage(lines, before, t, corpusName)
      case _ => before
  }

  /** The harvest after the first `k` responses, starting from `seen`. */
  function HarvestAfter(responses: seq<Response>, k: nat, seen: set<int>, t: Target, corpusName: string): Harvest
    requires k <= |responses|
  {
    CollectAll(responses[..k], Harvest([], seen), t, corpusName)
  }

  function TokenSet(rows: seq<OriginalSentence>): set<int> {
    set i | 0 <= i < |rows| :: rows[i].tokenNumber
  }

  lemma TokenSetAppend(rows: seq<OriginalSentence>, r: OriginalSentence)
    ensures TokenSet(rows + [r]) == TokenSet(rows) + {r.tokenNumber}
  {
    var all := rows + [r];
    forall x | x in TokenSet(all) ensures x in TokenSet(rows) + {r.tokenNumber} {
      var i :| 0 <= i < |all| && all[i].tokenNumber == x;
      if i < |rows| { assert rows[i].tokenNumber == x; }
    }
    forall x | x in TokenSet(rows) ensures x in TokenSet(all) {
      var i :| 0 <= i < |rows| && rows[i].tokenNumber == x;
      assert all[i].tokenNumber == x;
    }
    assert all[|rows|].tokenNumber == r.tokenNumber;
  }

  /** A sentence passes every filter of the search and carries its labels. */
  predicate Eligible(r: OriginalSentence, t: Target, corpusName: string) {
    && r.expressionId == t.expressionId
    && r.corpusName == corpusName
    && r.sources == SOURCE_LABEL
    && t.minWords <= |Words(r.sentence)| <= t.maxWords
    && r.genre !in EXCLUDED_GENRES
  }

  /** A harvest started from the seen-set `seen0`: its tokens are distinct
      and new, the seen-set grew by exactly them, and every sentence is eligible. */
  predicate Consistent(h: Harvest, seen0: set<int>, t: Target, corpusName: string) {
    && DistinctTokens(h.pool)
    && (forall i :: 0 <= i < |h.pool| ==> h.pool[i].tokenNumber !in seen0)
    && (forall i :: 0 <= i < |h.pool| ==> Eligible(h.pool[i], t, corpusName))
    && h.seen == seen0 + TokenSet(h.pool)
  }

  /** The record of an accepted line is eligible and carries its token. */
  lemma AcceptedEligible(line: Line, seen: set<int>, t: Target, corpusName: string)
    requires Accepts(line, seen, t)
    ensures var r := RecordOf(line, t.expressionId, corpusName);
            Eligible(r, t, corpusName) && r.tokenNumber == TokenOf(line) && r.tokenNumber !in seen
  {
  }

  /** Adding an eligible sentence with an unseen token keeps a harvest
      consistent. */
  lemma AppendKeepsConsistent(h: Harvest, r: OriginalSentence, seen0: set<int>, t: Target, corpusName: string)
    requires Consistent(h, seen0, t, corpusName)
    requires Eligible(r, t, corpusName) && r.tokenNumber !in h.seen
    ensures Consistent(Harvest(h.pool + [r], h.seen + {r.tokenNumber}), seen0, t, corpusName)
  {
    var pool := h.pool + [r];
    forall i, j | 0 <= i < j < |pool| ensures pool[i].tokenNumber != pool[j].tokenNumber {
      if j == |h.pool| {
        assert pool[i].tokenNumber in TokenSet(h.pool);
      }
    }
    TokenSetAppend(h.pool, r);
  }

  /** Accepting one line keeps a harvest consistent. */
  lemma AcceptKeepsConsistent(h: Harvest, line: Line, seen0: set<int>, t: Target, corpusName: string)
    requires Consistent(h, seen0, t, corpusName)
    requires Accepts(line, h.seen, t)
    ensures Consistent(Harvest(h.pool + [RecordOf(line, t.expressionId, corpusName)], h.seen + {TokenOf(line)}),
                       seen0, t, corpusName)
  {
    AcceptedEligible(line, h.seen, t, corpusName);
    AppendKeepsConsistent(h, RecordOf(line, t.expressionId, corpusName), seen0, t, corpusName);
  }

  /** One line of the inner loop. */
  function Step(h: Harvest, line: Line, t: Target, corpusName: string): Harvest {
    if Accepts(line, h.seen, t)
    then Harvest(h.pool + [RecordOf(line, t.expressionId, corpusName)], h.seen + {TokenOf(line)})
    else h
  }

  /** Processing a page keeps a harvest consistent and only appends to it. */
  lemma {:induction false} CollectPageConsistent(lines: seq<Line>, h: Harvest, seen0: set<int>, t: Target, corpusName: string)
    requires Consistent(h, seen0, t, corpusName)
    ensures var h' := CollectPage(lines, h, t, corpusName);
            Consistent(h', seen0, t, corpusName) && |h.pool| <= |h'.pool| && h'.pool[..|h.pool|] == h.pool
  {
    if lines != [] {
      var before := CollectPage(lines[..|lines| - 1], h, t, corpusName);
      CollectPageConsistent(lines[..|lines| - 1], h, seen0, t, corpusName);
      var line := lines[|lines| - 1];
      var after := Step(before, line, t, corpusName);
      assert CollectPage(lines, h, t, corpusName) == after;
      if Accepts(line, before.seen, t) {
        AcceptKeepsConsistent(before, line, seen0, t, corpusName);
        assert after.pool[..|h.pool|] == before.pool[..|h.pool|];
      }
    }
  }

  /** The whole run keeps a harvest consistent and only appends to it. */
  lemma {:induction false} CollectAllConsistent(responses: seq<Response>, h: Harvest, seen0: set<int>, t: Target, corpusName: string)
    requires Consistent(h, seen0, t, corpusName)
    ensures var h' := CollectAll(responses, h, t, corpusName);
            Consistent(h', seen0, t, corpusName) && |h.pool| <= |h'.pool| && h'.pool[..|h.pool|] == h.pool
  {
    if responses != [] {
      var before := CollectAll(responses[..|responses| - 1], h, t, corpusName);
      CollectAllConsistent(responses[..|responses| - 1], h, seen0, t, corpusName);
      match responses[|responses| - 1]
      case Page(lines) =>
        CollectPageConsistent(lines, before, seen0, t, corpusName);
        var after := CollectPage(lines, before, t, corpusName);
        assert after.pool[..|h.pool|] == after.pool[..|before.pool|][..|h.pool|];
      case _ =>
    }
  }

  /** The harvest after one more response. */
  lemma HarvestAfterStep(responses: seq<Response>, k: nat, seen0: set<int>, t: Target, corpusName: string)
    requires k < |responses|
    ensures HarvestAfter(responses, k + 1, seen0, t, corpusName) ==
            match responses[k]
            case Page(lines) => CollectPage(lines, HarvestAfter(responses, k, seen0, t, corpusName), t, corpusName)
            case _ => HarvestAfter(responses, k, seen0, t, corpusName)
  {
    assert responses[..k + 1][..k] == responses[..k];
  }

  /** Every harvest of a run from a given seen-set is consistent with it. */
  lemma HarvestAfterConsistent(responses: seq<Response>, k: nat, seen0: set<int>, t: Target, corpusName: string)
    requires k <= |responses|
    ensures Consistent(HarvestAfter(responses, k, seen0, t, corpusName), seen0, t, corpusName)
  {
    assert TokenSet([]) == {};
    CollectAllConsistent(responses[..k], Harvest([], seen0), seen0, t, corpusName);
  }

  /** A request error or a response without `Lines` changes nothing. */
  lemma RetryKeepsHarvest(responses: seq<Response>, h: Harvest, t: Target, corpusName: string, r: Response)
    requires r.MissingLines? || r.RequestError?
    ensures CollectAll(responses + [r], h, t, corpusName) == CollectAll(responses, h, t, corpusName)
  {
    assert (responses + [r])[..|responses|] == responses;
  }

  // ------------------------------------------------------------- sampling

  /** `s` takes its elements from the pool positions listed in `idx`, which
      are pairwise different. */
  predicate SampledAt(s: seq<OriginalSentence>, pool: seq<OriginalSentence>, idx: seq<int>) {
    && |idx| == |s|
    && (forall k :: 0 <= k < |idx| ==> 0 <= idx[k] < |pool| && s[k] == pool[idx[k]])
    && (forall k, l :: 0 <= k < l < |idx| ==> idx[k] != idx[l])
  }

  /** `random.sample(pool, n)`: `n` elements drawn from distinct positions of the pool. */
  ghost predicate IsSample(s: seq<OriginalSentence>, pool: seq<OriginalSentence>, n: int) {
    |s| == n && exists idx :: SampledAt(s, pool, idx)
  }

  /** What `fetch_sentences` returns for a final pool: nothing when no
      sentence was asked for, a sample of the requested size when the pool
      is large enough, the whole pool otherwise. */
  ghost predicate Selected(result: seq<OriginalSentence>, pool: seq<OriginalSentence>, n: int) {
    if n <= 0 then result == []
    else if |pool| >= n then IsSample(result, pool, n)
    else result == pool
  }

  /** A selection from a pool with distinct tokens has distinct tokens, all
      taken from the pool, and never more than were asked for. */
  lemma SelectedFromPool(result: seq<OriginalSentence>, pool: seq<OriginalSentence>, n: int)
    requires DistinctTokens(pool)
    requires Selected(result, pool, n)
    ensures DistinctTokens(result)
    ensures forall i :: 0 <= i < |result| ==> result[i] in pool
    ensures |result| <= if n <= 0 then 0 else n
  {
    if n > 0 && |pool| >= n {
      var idx :| SampledAt(result, pool, idx);
      forall i, j | 0 <= i < j < |result| ensures result[i].tokenNumber != result[j].tokenNumber {
        var a, b := idx[i], idx[j];
        if a < b {
          assert pool[a].tokenNumber != pool[b].tokenNumber;
        } else {
          assert pool[b].tokenNumber != pool[a].tokenNumber;
        }
      }
    }
  }

  /** What a fetch returns, whatever the responses: at most the number of
      sentences asked for, with distinct token numbers that were not seen
      before the call and are seen after it, each passing every filter. */
  lemma FetchedSentences(responses: seq<Response>, k: nat, seen0: set<int>, t: Target, corpusName: string,
                         sentences: seq<OriginalSentence>, n: int)
    requires k <= |responses|
    requires Selected(sentences, HarvestAfter(responses, k, seen0, t, corpusName).pool, n)
    ensures var h := HarvestAfter(responses, k, seen0, t, corpusName);
            && |sentences| <= (if n <= 0 then 0 else n)
            && DistinctTokens(sentences)
            && seen0 <= h.seen
            && forall i :: 0 <= i < |sentences| ==>
                 && Eligible(sentences[i], t, corpusName)
                 && sentences[i].tokenNumber !in seen0
                 && sentences[i].tokenNumber in h.seen
  {
    var h := HarvestAfter(responses, k, seen0, t, corpusName);
    HarvestAfterConsistent(responses, k, seen0, t, corpusName);
    SelectedFromPool(sentences, h.pool, n);
    forall i | 0 <= i < |sentences|
      ensures sentences[i].tokenNumber in h.seen
    {
      var j :| 0 <= j < |h.pool| && h.pool[j] == sentences[i];
      assert h.pool[j].tokenNumber in TokenSet(h.pool);
    }
  }

  /** `random.sample(pool, n)`. Callers rely on the contract only: the body
      draws the first `n` positions, any other draw meets it as well. */
  method RandomSample(pool: seq<OriginalSentence>, n: int) returns (s: seq<OriginalSentence>)
    requires 0 <= n <= |pool|
    ensures IsSample(s, pool, n)
  {
    s := pool[..n];
    assert SampledAt(s, pool, seq(n, k => k));
  }

  // ------------------------------------------------------------ stopping

  /** Whether the paging loop asks again after response `r`, the pool
      having grown from `before` to `after` sentences: it retries after a
      request error or a missing `Lines`, and goes on after a non-empty page
      that added sentences without reaching `n`. */
  predicate Continues(r: Response, before: nat, after: nat, n: int) {
    match r
    case MissingLines => true
    case RequestError => true
    case NullLines => false
    case Page(lines) => lines != [] && before < after < n
  }

  /** Whether the paging loop asks again after the `k`-th response. */
  predicate GoesOn(responses: seq<Response>, k: nat, seen0: set<int>, t: Target, corpusName: string, n: int)
    requires k < |responses|
  {
    Continues(responses[k], |HarvestAfter(responses, k, seen0, t, corpusName).pool|,
              |HarvestAfter(responses, k + 1, seen0, t, corpusName).pool|, n)
  }

  /** The paging loop went on after each of the first `m` responses. */
  predicate KeptGoing(responses: seq<Response>, m: nat, seen0: set<int>, t: Target, corpusName: string, n: int)
    requires m <= |responses|
  {
    forall k :: 0 <= k < m ==> GoesOn(responses, k, seen0, t, corpusName, n)
  }

  lemma KeptGoingExtend(responses: seq<Response>, m: nat, seen0: set<int>, t: Target, corpusName: string, n: int)
    requires m < |responses|
    requires KeptGoing(responses, m, seen0, t, corpusName, n) && GoesOn(responses, m, seen0, t, corpusName, n)
    ensures KeptGoing(responses, m + 1, seen0, t, corpusName, n)
  {
  }

  // ---------------------------------------------------------------- fetcher

  class SketchEngineFetcher {
    const username: string
    const apiKey: string
    const corpusName: string
    const baseUrl: string
    var seenToknums: set<int>

    constructor (username: string, apiKey: string, corpusName: string, baseUrl: string)
      ensures this.username == username && this.apiKey == apiKey
      ensures this.corpusName == corpusName && this.baseUrl == baseUrl
      ensures seenToknums == {}
    {
      this.username := username;
      this.apiKey := apiKey;
      this.corpusName := corpusName;
      this.baseUrl := baseUrl;
      seenToknums := {};
    }

    /** The inner loop of `fetch_sentences` over the lines of one page:
        accepted lines are appended to `pool` and their tokens marked seen;
        `newSentences` counts them. */
    method ScanPage(lines: seq<Line>, pool: seq<OriginalSentence>, expressionId: int, minWords: int, maxWords: int)
      returns (newPool: seq<OriginalSentence>, newSentences: int)
      modifies this
      ensures Harvest(newPool, seenToknums) ==
              CollectPage(lines, Harvest(pool, old(seenToknums)), Target(expressionId, minWords, maxWords), corpusName)
      ensures newSentences == |newPool| - |pool| >= 0
    {
      ghost var t := Target(expressionId, minWords, maxWords);
      ghost var start := Harvest(pool, seenToknums);
      newPool := pool;
      newSentences := 0;
      var j := 0;
      while j < |lines|
        invariant 0 <= j <= |lines|
        invariant Harvest(newPool, seenToknums) == CollectPage(lines[..j], start, t, corpusName)
        invariant newSentences == |newPool| - |pool| >= 0
      {
        ghost var current := Harvest(newPool, seenToknums);
        var line := lines[j];
        var sentence := SentenceOf(line);
        var wordCount := |Words(sentence)|;
        var tokenNumber := TokenOf(line);
        var metadata := ParseRefs(line.refs.GetOr([]));
        var genre := Lower(Get(metadata, "Genre", ""));
        if tokenNumber in seenToknums || genre in EXCLUDED_GENRES {
        } else if minWords <= wordCount <= maxWords {
          newPool := newPool + [RecordOf(line, expressionId, corpusName)];
          seenToknums := seenToknums + {tokenNumber};
          newSentences := newSentences + 1;
        }
        assert Harvest(newPool, seenToknums) == Step(current, line, t, corpusName);
        assert lines[..j + 1][..j] == lines[..j];
        j := j + 1;
      }
      assert lines[..j] == lines;
    }

    /** Pages through the concordance of `expression`, answered by
        `responses` in order, and returns up to `numSentences` new eligible
        sentences. `requests` are the requests issued, one per response
        consumed; `pool` is every sentence accepted on the way. */
    method FetchSentences(expressionId: int, expression: string, numSentences: int,
                          minWords: int, maxWords: int, responses: seq<Response>)
      returns (sentences: seq<OriginalSentence>, requests: seq<Request>, ghost pool: seq<OriginalSentence>)
      modifies this
      // every request is the same one: the page index is never advanced
      ensures |requests| <= |responses|
      ensures forall k :: 0 <= k < |requests| ==> requests[k] == Request(corpusName, BuildQuery(expression), 1, PAGE_SIZE)
      ensures numSentences <= 0 ==> requests == []
      // the pool and the seen-set are those of the responses consumed
      ensures var h := HarvestAfter(responses, |requests|, old(seenToknums), Target(expressionId, minWords, maxWords), corpusName);
              pool == h.pool && seenToknums == h.seen
      ensures Selected(sentences, pool, numSentences)
      // the loop goes on exactly while the responses say so
      ensures |requests| > 0 ==>
                KeptGoing(responses, |requests| - 1, old(seenToknums), Target(expressionId, minWords, maxWords),
                          corpusName, numSentences)
      ensures numSentences <= 0 || |requests| == |responses| ||
              (|requests| > 0 &&
               !GoesOn(responses, |requests| - 1, old(seenToknums), Target(expressionId, minWords, maxWords),
                       corpusName, numSentences))
    {
      ghost var seen0 := seenToknums;
      ghost var t := Target(expressionId, minWords, maxWords);
      var query := BuildQuery(expression);
      var collected := 0;
      var allSentences: seq<OriginalSentence> := [];
      sentences := [];
      requests := [];
      var i := 0;
      assert responses[..0] == [];
      while collected < numSentences && i < |responses|
        invariant 0 <= i <= |responses| && |requests| == i
        invariant forall k :: 0 <= k < i ==> requests[k] == Request(corpusName, query, 1, PAGE_SIZE)
        invariant i > 0 ==> numSentences > 0
        invariant allSentences == HarvestAfter(responses, i, seen0, t, corpusName).pool
        invariant seenToknums == HarvestAfter(responses, i, seen0, t, corpusName).seen
        invariant collected == |sentences|
        invariant Selected(sentences, allSentences, numSentences)
        invariant i > 0 ==> KeptGoing(responses, i - 1, seen0, t, corpusName, numSentences)
        invariant i > 0 ==> (GoesOn(responses, i - 1, seen0, t, corpusName, numSentences) <==> collected < numSentences)
        decreases |responses| - i
      {
        if i > 0 {
          KeptGoingExtend(responses, i - 1, seen0, t, corpusName, numSentences);
        } else {
          assert KeptGoing(responses, 0, seen0, t, corpusName, numSentences);
        }
        var response := responses[i];
        requests := requests + [Request(corpusName, query, 1, PAGE_SIZE)];
        HarvestAfterStep(responses, i, seen0, t, corpusName);
        ghost var before := |allSentences|;
        i := i + 1;
        if response.MissingLines? || response.RequestError? {
          // the 60-second cooldown, then the identical request again
          continue;
        }
        if response.NullLines? || response.lines == [] {
          break;
        }
        var newSentences;
        allSentences, newSentences := ScanPage(response.lines, allSentences, expressionId, minWords, maxWords);
        if |allSentences| >= numSentences {
          sentences := RandomSample(allSentences, numSentences);
        } else {
          sentences := allSentences;
        }
        collected := |sentences|;
        if newSentences == 0 {
          break;
        }
        assert collected < numSentences <==> |allSentences| < numSentences;
      }
      pool := allSentences;
    }
  }

  // ------------------------------------------------------------- the run

  /** The number of sentences over all returned lists. */
  function TotalLength(batches: seq<seq<OriginalSentence>>): nat {
    if batches == [] then 0 else TotalLength(batches[..|batches| - 1]) + |batches[|batches| - 1]|
  }

  /** The table after inserting each returned list in turn. */
  function InsertBatches(rows: seq<OriginalSentence>, batches: seq<seq<OriginalSentence>>): seq<OriginalSentence> {
    if batches == [] then rows else InsertNew(InsertBatches(rows, batches[..|batches| - 1]), batches[|batches| - 1])
  }

  /** A list `fetch_sentences` may return for target `t`: no more sentences
      than asked for, distinct token numbers, every sentence eligible. */
  predicate Fetched(batch: seq<OriginalSentence>, n: int, t: Target, corpusName: string) {
    && |batch| <= (if n <= 0 then 0 else n)
    && DistinctTokens(batch)
    && forall i :: 0 <= i < |batch| ==> Eligible(batch[i], t, corpusName)
  }

  /** Every token returned so far is in `seen`. */
  predicate TokensIn(batches: seq<seq<OriginalSentence>>, seen: set<int>) {
    forall f, i :: 0 <= f < |batches| && 0 <= i < |batches[f]| ==> batches[f][i].tokenNumber in seen
  }

  /** No token number appears in two different lists. */
  predicate Disjoint(batches: seq<seq<OriginalSentence>>) {
    forall e, f, i, j :: 0 <= e < f < |batches| && 0 <= i < |batches[e]| && 0 <= j < |batches[f]| ==>
      batches[e][i].tokenNumber != batches[f][j].tokenNumber
  }

  /** The seen-set grew from `seen` to `seen'`, and every token of `batch`
      is among the new ones. */
  predicate NewTokens(batch: seq<OriginalSentence>, seen: set<int>, seen': set<int>) {
    && seen <= seen'
    && forall i :: 0 <= i < |batch| ==> batch[i].tokenNumber !in seen && batch[i].tokenNumber in seen'
  }

  /** A list of tokens unseen so far extends disjoint lists to disjoint lists. */
  lemma DisjointAppend(batches: seq<seq<OriginalSentence>>, seen: set<int>, seen': set<int>, batch: seq<OriginalSentence>)
    requires Disjoint(batches) && TokensIn(batches, seen)
    requires NewTokens(batch, seen, seen')
    ensures Disjoint(batches + [batch]) && TokensIn(batches + [batch], seen')
  {
    var all: seq<seq<OriginalSentence>> := batches + [batch];
    forall e: int, f: int, i: int, j: int | 0 <= e < f < |all| && 0 <= i < |all[e]| && 0 <= j < |all[f]|
      ensures all[e][i].tokenNumber != all[f][j].tokenNumber
    {
      if f == |batches| {
        assert all[e][i].tokenNumber in seen;
      } else {
        assert batches[e][i].tokenNumber != batches[f][j].tokenNumber;
      }
    }
    forall f: int, i: int | 0 <= f < |all| && 0 <= i < |all[f]| ensures all[f][i].tokenNumber in seen' {
      if f < |batches| {
        assert batches[f][i].tokenNumber in seen;
      }
    }
  }

  /** What one `fetch_sentences` call for `expression` returns when
      answered by `responses` from seen-set `seen`: it sent `requests`, all
      the same request for the expression's query, and so consumed
      `|requests|` responses, going on after every one but the last and
      stopping after the last unless they ran out; `sentences` is selected
      from the pool harvested from them, and `seen'` is the seen-set that
      harvest leaves. */
  ghost predicate FetchOutcome(responses: seq<Response>, requests: seq<Request>, seen: set<int>, t: Target,
                               corpusName: string, expression: string,
                               n: int, sentences: seq<OriginalSentence>, seen': set<int>)
  {
    var k := |requests|;
    && k <= |responses|
    && (forall j :: 0 <= j < k ==> requests[j] == Request(corpusName, BuildQuery(expression), 1, PAGE_SIZE))
    && (n <= 0 ==> k == 0)
    && Selected(sentences, HarvestAfter(responses, k, seen, t, corpusName).pool, n)
    && seen' == HarvestAfter(responses, k, seen, t, corpusName).seen
    && (k > 0 ==> KeptGoing(responses, k - 1, seen, t, corpusName, n))
    && (n <= 0 || k == |responses| || (k > 0 && !GoesOn(responses, k - 1, seen, t, corpusName, n)))
  }

  /** One pass of the loop of `main`: `fetch_sentences` for one expression,
      answered by `responses`, one of which each of `requests` consumes. The
      list is a possible return of `fetch_sentences`, all with tokens the
      fetcher had not seen before. */
  method FetchExpression(fetcher: SketchEngineFetcher, expressionId: int, expression: string, numSentences: int,
                         minWords: int, maxWords: int, responses: seq<Response>)
    returns (sentences: seq<OriginalSentence>, requests: seq<Request>)
    modifies fetcher
    ensures FetchOutcome(responses, requests, old(fetcher.seenToknums), Target(expressionId, minWords, maxWords),
                         fetcher.corpusName, expression, numSentences, sentences, fetcher.seenToknums)
    ensures Fetched(sentences, numSentences, Target(expressionId, minWords, maxWords), fetcher.corpusName)
    ensures NewTokens(sentences, old(fetcher.seenToknums), fetcher.seenToknums)
  {
    ghost var seenBefore := fetcher.seenToknums;
    ghost var pool;
    sentences, requests, pool := fetcher.FetchSentences(expressionId, expression, numSentences, minWords, maxWords, responses);
    FetchedSentences(responses, |requests|, seenBefore, Target(expressionId, minWords, maxWords), fetcher.corpusName,
                     sentences, numSentences);
  }

  /** The lists of the first `|batches|` expressions are what
      `fetch_sentences` returns for their pages: expression `e` sent
      `sent[e]`, its own query each time, and so consumed `|sent[e]|` of
      `pages[e]`, starting from the seen-set `seens[e]` the
      earlier expressions left, and left `seens[e + 1]`; the first starts
      from an empty seen-set. */
  ghost predicate RunOutcome(expressions: seq<(int, string)>, pages: seq<seq<Response>>, sent: seq<seq<Request>>,
                             seens: seq<set<int>>, batches: seq<seq<OriginalSentence>>,
                             n: int, minWords: int, maxWords: int, corpusName: string)
  {
    && |batches| <= |expressions| && |batches| <= |pages|
    && |sent| == |batches| && |seens| == |batches| + 1
    && seens[0] == {}
    && forall e :: 0 <= e < |batches| ==>
         FetchOutcome(pages[e], sent[e], seens[e], Target(expressions[e].0, minWords, maxWords),
                      corpusName, expressions[e].1, n, batches[e], seens[e + 1])
  }

  /** One more expression's outcome extends the run. */
  lemma RunOutcomeExtend(expressions: seq<(int, string)>, pages: seq<seq<Response>>, sent: seq<seq<Request>>,
                         seens: seq<set<int>>, batches: seq<seq<OriginalSentence>>,
                         n: int, minWords: int, maxWords: int, corpusName: string,
                         requests: seq<Request>, batch: seq<OriginalSentence>, seen': set<int>)
    requires RunOutcome(expressions, pages, sent, seens, batches, n, minWords, maxWords, corpusName)
    requires |batches| < |expressions| && |batches| < |pages|
    requires FetchOutcome(pages[|batches|], requests, seens[|batches|],
                          Target(expressions[|batches|].0, minWords, maxWords),
                          corpusName, expressions[|batches|].1, n, batch, seen')
    ensures RunOutcome(expressions, pages, sent + [requests], seens + [seen'], batches + [batch],
                       n, minWords, maxWords, corpusName)
  {
    var sent', seens', batches' := sent + [requests], seens + [seen'], batches + [batch];
    forall e | 0 <= e < |batches'|
      ensures FetchOutcome(pages[e], sent'[e], seens'[e], Target(expressions[e].0, minWords, maxWords),
                           corpusName, expressions[e].1, n, batches'[e], seens'[e + 1])
    {
      if e < |batches| {
        assert sent'[e] == sent[e] && seens'[e] == seens[e] && seens'[e + 1] == seens[e + 1];
        assert batches'[e] == batches[e];
      }
    }
  }

  /** The script's `main`: one fetcher for all expressions, each expression's
      sentences inserted as soon as they are fetched, and the running total.
      `pages[e]` answers the requests made for `expressions[e]`. */
  method FetchAndStoreAll(store: DataStore, expressions: seq<(int, string)>, pages: seq<seq<Response>>,
                          numSentences: int, minWords: int, maxWords: int,
                          username: string, apiKey: string, corpusName: string, baseUrl: string)
    returns (total: int, ghost batches: seq<seq<OriginalSentence>>,
             ghost sent: seq<seq<Request>>, ghost seens: seq<set<int>>)
    requires |pages| == |expressions|
    modifies store
    ensures |batches| == |expressions|
    // each list is what `fetch_sentences` returns for its pages, queried
    // with its own expression, from the seen-set the previous expressions
    // left; the first starts empty
    ensures RunOutcome(expressions, pages, sent, seens, batches, numSentences, minWords, maxWords, corpusName)
    ensures total == TotalLength(batches)
    ensures store.originalSentences == InsertBatches(old(store.originalSentences), batches)
    ensures store.llmClassifications == old(store.llmClassifications)
    ensures forall e :: 0 <= e < |batches| ==>
              Fetched(batches[e], numSentences, Target(expressions[e].0, minWords, maxWords), corpusName)
    // the seen-set is never reset: no token is returned for two expressions
    ensures Disjoint(batches)
  {
    var fetcher := new SketchEngineFetcher(username, apiKey, corpusName, baseUrl);
    total := 0;
    batches := [];
    sent := [];
    seens := [{}];
    var e := 0;
    while e < |expressions|
      invariant 0 <= e <= |expressions| && |batches| == e
      invariant fetcher.corpusName == corpusName
      invariant RunOutcome(expressions, pages, sent, seens, batches, numSentences, minWords, maxWords, corpusName)
      invariant seens[e] == fetcher.seenToknums
      invariant total == TotalLength(batches)
      invariant store.originalSentences == InsertBatches(old(store.originalSentences), batches)
      invariant store.llmClassifications == old(store.llmClassifications)
      invariant forall f :: 0 <= f < e ==>
                  Fetched(batches[f], numSentences, Target(expressions[f].0, minWords, maxWords), corpusName)
      invariant TokensIn(batches, fetcher.seenToknums) && Disjoint(batches)
    {
      var (expressionId, expression) := expressions[e];
      ghost var seenBefore := fetcher.seenToknums;
      var sentences, requests := FetchExpression(fetcher, expressionId, expression, numSentences, minWords, maxWords, pages[e]);
      RunOutcomeExtend(expressions, pages, sent, seens, batches, numSentences, minWords, maxWords, corpusName,
                       requests, sentences, fetcher.seenToknums);
      DisjointAppend(batches, seenBefore, fetcher.seenToknums, sentences);
      store.InsertOriginalSentences(sentences);
      total := total + |sentences|;
      batches := batches + [sentences];
      sent := sent + [requests];
      seens := seens + [fetcher.seenToknums];
      assert batches[..e] == batches[..|batches| - 1];
      e := e + 1;
    }
  }
}
