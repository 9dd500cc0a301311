/** Batch paraphrasing: the request file built from the stored sentences,
    the polling of the batch job, and the reconciliation of its result lines
    into `(id, paraphrase, model, fingerprint)` rows. The OpenAI client,
    the JSONL files and the clock are parameters. */
module Paraphrase {
  import opened Wrappers
  import opened PyStr
  import opened Chat

  const MAX_TOKENS := 70
  const TEMPERATURE := 1
  const ENDPOINT := "/v1/chat/completions"
  const HTTP_METHOD := "POST"
  /** The polling budget, in seconds. */
  const TIMEOUT := 24 * 60 * 60
  /** The pause between two polls, in seconds. */
  const POLL_INTERVAL := 30
  const UNKNOWN_FINGERPRINT := "unknown"

  // ------------------------------------------------------------ requests

  /** A row of `fetch_original_sentences`: the sentence's id and text. */
  datatype SourceSentence = SourceSentence(id: int, text: string)

  datatype Body = Body(model: string, messages: seq<Message>, maxTokens: int, temperature: int)

  /** One line of the batch input file. */
  datatype BatchRequest = BatchRequest(customId: string, httpMethod: string, url: string, body: Body)

  /** `f"{id}-{idx}"`. */
  function CustomId(id: int, idx: nat): string {
    IntToString(id) + "-" + NatToString(idx)
  }

  /** `custom_id.split('-')[0]`: the text before the first `-`. */
  function RecoverId(customId: string): string {
    SplitOn(customId, '-')[0]
  }

  /** The id's text comes back from the custom id exactly when it holds no
      `-`, that is, when the id is not negative; a negative id comes back
      as the empty string. */
  lemma CustomIdRoundTrip(id: int, idx: nat)
    ensures RecoverId(CustomId(id, idx)) == IntToString(id) <==> id >= 0
    ensures id < 0 ==> RecoverId(CustomId(id, idx)) == ""
  {
    var a, b := IntToString(id), NatToString(idx);
    assert CustomId(id, idx) == a + ['-'] + b;
    FirstPieceOfJoined(a, '-', b);
    if id < 0 {
      var s := a + ['-'] + b;
      assert s[0] == '-';
      assert IndexOf(s, '-') == 0;
    }
  }

  /** Request number `idx` for a sentence; `prompt` is the template's
      `format` applied to the sentence text. */
  function MakeRequest(s: SourceSentence, idx: nat, model: string, prompt: string -> string): BatchRequest {
    BatchRequest(CustomId(s.id, idx), HTTP_METHOD, ENDPOINT,
                 Body(model, UserTurn(prompt(s.text)), MAX_TOKENS, TEMPERATURE))
  }

  /** `range(n)`: empty for a negative `n`. */
  function Count(n: int): nat {
    if n < 0 then 0 else n
  }

  /** The requests for one sentence, `idx` ascending. */
  function Repeats(s: SourceSentence, n: int, model: string, prompt: string -> string): (rs: seq<BatchRequest>)
    ensures |rs| == Count(n)
    ensures forall k :: 0 <= k < |rs| ==> rs[k] == MakeRequest(s, k, model, prompt)
  {
    seq(Count(n), k requires 0 <= k => MakeRequest(s, k, model, prompt))
  }

  /** The whole batch input, sentence-major. */
  function Expand(sentences: seq<SourceSentence>, n: int, model: string, prompt: string -> string): seq<BatchRequest> {
    if sentences == [] then []
    else Expand(sentences[..|sentences| - 1], n, model, prompt) + Repeats(sentences[|sentences| - 1], n, model, prompt)
  }

  /** `i * m + k` lies in the block of `m` positions that starts at `i * m`. */
  lemma {:induction false} BlockIndex(i: nat, k: nat, m: nat, len: nat)
    requires i < len && k < m
    ensures i * m + k < len * m
    ensures i * m + m <= len * m
    decreases len
  {
    if i + 1 < len {
      BlockIndex(i, k, m, len - 1);
      assert len * m == (len - 1) * m + m;
    } else {
      assert len * m == i * m + m;
    }
  }

  /** The batch holds `Count(n)` requests per sentence. */
  lemma {:induction false} ExpandLength(sentences: seq<SourceSentence>, n: int, model: string, prompt: string -> string)
    ensures |Expand(sentences, n, model, prompt)| == |sentences| * Count(n)
  {
    if sentences != [] {
      ExpandLength(sentences[..|sentences| - 1], n, model, prompt);
      assert |sentences| * Count(n) == (|sentences| - 1) * Count(n) + Count(n);
    }
  }

  /** Request `k` of sentence `i` sits at position `i * Count(n) + k`. */
  lemma {:induction false} ExpandIndex(sentences: seq<SourceSentence>, n: int, model: string, prompt: string -> string,
                                       i: nat, k: nat)
    requires i < |sentences| && k < Count(n)
    ensures i * Count(n) + k < |Expand(sentences, n, model, prompt)|
    ensures Expand(sentences, n, model, prompt)[i * Count(n) + k] == MakeRequest(sentences[i], k, model, prompt)
  {
    var init := sentences[..|sentences| - 1];
    var m := Count(n);
    ExpandLength(init, n, model, prompt);
    BlockIndex(i, k, m, |sentences|);
    if i < |init| {
      BlockIndex(i, k, m, |init|);
      ExpandIndex(init, n, model, prompt, i, k);
      assert sentences[i] == init[i];
    } else {
      assert i * m == |init| * m;
    }
  }

  /** Request `r` sits at position `i * m + k` of `batch`. */
  predicate RequestAt(batch: seq<BatchRequest>, m: nat, i: nat, k: nat, r: BatchRequest) {
    i * m + k < |batch| && batch[i * m + k] == r
  }

  /** Exactly `|sentences| * n` requests, sentence-major: the one at
      `i * n + k` is request `k` of sentence `i`. */
  lemma ExpandAt(sentences: seq<SourceSentence>, n: int, model: string, prompt: string -> string)
    ensures |Expand(sentences, n, model, prompt)| == |sentences| * Count(n)
    ensures forall i: nat, k: nat :: i < |sentences| && k < Count(n) ==>
              RequestAt(Expand(sentences, n, model, prompt), Count(n), i, k, MakeRequest(sentences[i], k, model, prompt))
  {
    ExpandLength(sentences, n, model, prompt);
    forall i: nat, k: nat | i < |sentences| && k < Count(n)
      ensures RequestAt(Expand(sentences, n, model, prompt), Count(n), i, k, MakeRequest(sentences[i], k, model, prompt))
    {
      ExpandIndex(sentences, n, model, prompt, i, k);
    }
  }

  /** Every request of the batch is addressed to the chat-completion
      endpoint with the configured parameters and carries the id of the
      sentence it was built from. */
  lemma {:induction false} ExpandRequests(sentences: seq<SourceSentence>, n: int, model: string, prompt: string -> string)
    ensures forall r :: r in Expand(sentences, n, model, prompt) ==>
              && r.httpMethod == HTTP_METHOD && r.url == ENDPOINT
              && r.body.model == model && r.body.maxTokens == MAX_TOKENS && r.body.temperature == TEMPERATURE
              && |r.body.messages| == 1 && r.body.messages[0].role == "user"
              && exists i :: 0 <= i < |sentences| && r.body.messages[0].content == prompt(sentences[i].text)
                             && (sentences[i].id >= 0 ==> RecoverId(r.customId) == IntToString(sentences[i].id))
  {
    if sentences != [] {
      var init := sentences[..|sentences| - 1];
      var last := sentences[|sentences| - 1];
      ExpandRequests(init, n, model, prompt);
      forall r | r in Expand(sentences, n, model, prompt)
        ensures exists i :: 0 <= i < |sentences| && r.body.messages[0].content == prompt(sentences[i].text)
                            && (sentences[i].id >= 0 ==> RecoverId(r.customId) == IntToString(sentences[i].id))
      {
        if r in Expand(init, n, model, prompt) {
          var i :| 0 <= i < |init| && r.body.messages[0].content == prompt(init[i].text)
                   && (init[i].id >= 0 ==> RecoverId(r.customId) == IntToString(init[i].id));
          assert sentences[i] == init[i];
        } else {
          var rs := Repeats(last, n, model, prompt);
          var k :| 0 <= k < |rs| && rs[k] == r;
          CustomIdRoundTrip(last.id, k);
          assert sentences[|sentences| - 1] == last;
        }
      }
    }
  }

  /** `create_batch_input_file`: the lines written to the JSONL file. */
  method CreateBatchInputFile(sentences: seq<SourceSentence>, numParaphrases: int, model: string, prompt: string -> string)
    returns (lines: seq<BatchRequest>)
    ensures lines == Expand(sentences, numParaphrases, model, prompt)
  {
    lines := [];
    var i := 0;
    while i < |sentences|
      invariant 0 <= i <= |sentences|
      invariant lines == Expand(sentences[..i], numParaphrases, model, prompt)
    {
      var sentence := sentences[i];
      ghost var before := lines;
      var idx := 0;
      while idx < numParaphrases
        invariant 0 <= idx <= Count(numParaphrases)
        invariant lines == before + Repeats(sentence, numParaphrases, model, prompt)[..idx]
      {
        var content := prompt(sentence.text);
        var request := BatchRequest(CustomId(sentence.id, idx), HTTP_METHOD, ENDPOINT,
                                    Body(model, UserTurn(content), MAX_TOKENS, TEMPERATURE));
        assert Repeats(sentence, numParaphrases, model, prompt)[..idx + 1] ==
               Repeats(sentence, numParaphrases, model, prompt)[..idx] + [request];
        lines := lines + [request];
        idx := idx + 1;
      }
      assert Repeats(sentence, numParaphrases, model, prompt)[..idx] == Repeats(sentence, numParaphrases, model, prompt);
      assert sentences[..i + 1][..i] == sentences[..i];
      i := i + 1;
    }
    assert sentences[..i] == sentences;
  }

  // -------------------------------------------------------------- results

  /** The decoded JSON of one result line; every field may be absent. A null
      fingerprint is absent too, since both are treated alike. */
  datatype ChoiceMessage = ChoiceMessage(content: Option<string>)
  datatype Choice = Choice(message: Option<ChoiceMessage>)
  /** `model` is `None` when the key is missing and `Some(None)` when it is
      JSON `null`, which the code passes on as Python's `None`. */
  datatype ResultBody = ResultBody(choices: Option<seq<Choice>>, model: Option<Option<string>>,
                                   systemFingerprint: Option<string>)
  datatype ResultResponse = ResultResponse(body: Option<ResultBody>)
  datatype ResultItem = ResultItem(customId: Option<string>, response: Option<ResultResponse>)

  /** One tuple handed to the datastore. */
  datatype ParaphraseRow = ParaphraseRow(originalSentenceId: string, paraphrasedSentence: string,
                                         model: Option<string>, fingerprint: string)

  /** The first choice's message content, if every step down to it exists. */
  function FirstContent(b: ResultBody): Option<string> {
    if b.choices.Some? && |b.choices.value| > 0 && b.choices.value[0].message.Some?
    then b.choices.value[0].message.value.content
    else None
  }

  /** The tuple of one decoded line, or `None` where the code raises (a
      missing body, choice, content, `model` key or custom id). */
  function ParseItem(item: ResultItem): (row: Option<ParaphraseRow>)
    ensures row.Some? <==>
              && item.customId.Some? && item.response.Some? && item.response.value.body.Some?
              && FirstContent(item.response.value.body.value).Some?
              && item.response.value.body.value.model.Some?
    ensures row.Some? ==>
              var b := item.response.value.body.value;
              && row.value.originalSentenceId == RecoverId(item.customId.value)
              && row.value.paraphrasedSentence == Strip(FirstContent(b).value)
              && row.value.model == b.model.value
              && row.value.fingerprint == b.systemFingerprint.GetOr(UNKNOWN_FINGERPRINT)
  {
    if item.response.None? || item.response.value.body.None? then None
    else
      var b := item.response.value.body.value;
      match FirstContent(b)
      case None => None
      case Some(message) =>
        if b.model.None? || item.customId.None? then None
        else
          var fingerprint := if b.systemFingerprint.None? then UNKNOWN_FINGERPRINT else b.systemFingerprint.value;
          Some(ParaphraseRow(RecoverId(item.customId.value), Strip(message), b.model.value, fingerprint))
  }

  /** What the loop body makes of one line: `json.loads`, then the field
      lookups; `None` where either raises. */
  function LineParser(decode: string -> Option<ResultItem>): string -> Option<ParaphraseRow> {
    (line: string) => if decode(line).Some? then ParseItem(decode(line).value) else None
  }

  /** The parse loop over the lines, each parsed by `parse`: `None` as soon
      as one line raises. */
  function ParseLines(lines: seq<string>, parse: string -> Option<ParaphraseRow>): Option<seq<ParaphraseRow>> {
    if lines == [] then Some([])
    else
      var rows := ParseLines(lines[..|lines| - 1], parse);
      var row := parse(lines[|lines| - 1]);
      if rows.None? || row.None? then None
      else Some(rows.value + [row.value])
  }

  /** One more line of the parse loop. */
  lemma ParseLinesStep(lines: seq<string>, i: nat, parse: string -> Option<ParaphraseRow>)
    requires i < |lines|
    ensures ParseLines(lines[..i + 1], parse) ==
            if ParseLines(lines[..i], parse).None? || parse(lines[i]).None? then None
            else Some(ParseLines(lines[..i], parse).value + [parse(lines[i]).value])
  {
    assert lines[..i + 1][..i] == lines[..i];
  }

  /** Once a prefix fails, the whole parse fails. */
  lemma {:induction false} ParseLinesPrefixFails(lines: seq<string>, k: nat, parse: string -> Option<ParaphraseRow>)
    requires k <= |lines|
    requires ParseLines(lines[..k], parse).None?
    ensures ParseLines(lines, parse).None?
    decreases |lines| - k
  {
    if k < |lines| {
      assert lines[..k + 1][..k] == lines[..k];
      ParseLinesPrefixFails(lines, k + 1, parse);
    } else {
      assert lines[..k] == lines;
    }
  }

  /** When every line parses, the parse yields one tuple per line, in line
      order. */
  lemma {:induction false} ParseLinesAllParse(lines: seq<string>, parse: string -> Option<ParaphraseRow>)
    requires forall i :: 0 <= i < |lines| ==> parse(lines[i]).Some?
    ensures ParseLines(lines, parse).Some?
    ensures var rows := ParseLines(lines, parse).value;
            && |rows| == |lines|
            && forall i :: 0 <= i < |lines| ==> rows[i] == parse(lines[i]).value
  {
    if lines != [] {
      var init := lines[..|lines| - 1];
      var last := lines[|lines| - 1];
      forall i | 0 <= i < |init| ensures parse(init[i]).Some? {
        assert init[i] == lines[i];
      }
      ParseLinesAllParse(init, parse);
      var rows := ParseLines(init, parse).value + [parse(last).value];
      assert ParseLines(lines, parse) == Some(rows);
      forall i | 0 <= i < |lines| ensures rows[i] == parse(lines[i]).value {
        if i < |init| {
          assert init[i] == lines[i];
        }
      }
    }
  }

  /** A single line that does not parse makes the whole parse fail. */
  lemma LineFails(lines: seq<string>, j: nat, parse: string -> Option<ParaphraseRow>)
    requires j < |lines| && parse(lines[j]).None?
    ensures ParseLines(lines, parse).None?
  {
    ParseLinesStep(lines, j, parse);
    ParseLinesPrefixFails(lines, j + 1, parse);
  }

  /** The parse succeeds exactly when every line parses, and then yields one
      tuple per line, in line order. */
  lemma ParseLinesIff(lines: seq<string>, parse: string -> Option<ParaphraseRow>)
    ensures ParseLines(lines, parse).Some? <==> forall i :: 0 <= i < |lines| ==> parse(lines[i]).Some?
    ensures ParseLines(lines, parse).Some? ==>
              var rows := ParseLines(lines, parse).value;
              && |rows| == |lines|
              && forall i :: 0 <= i < |lines| ==> parse(lines[i]).Some? && rows[i] == parse(lines[i]).value
  {
    if forall i :: 0 <= i < |lines| ==> parse(lines[i]).Some? {
      ParseLinesAllParse(lines, parse);
    } else {
      var j :| 0 <= j < |lines| && parse(lines[j]).None?;
      LineFails(lines, j, parse);
    }
  }

  /** The lines of the downloaded output: `content.strip().split('\n')`. */
  function OutputLines(content: string): (lines: seq<string>)
    ensures lines != []
  {
    SplitOn(Strip(content), '\n')
  }

  /** A successful parse of an output file never yields an empty list, so
      the `if paraphrased_data` guard never skips the insert. */
  lemma ParsedOutputNonEmpty(content: string, decode: string -> Option<ResultItem>)
    ensures var parsed := ParseLines(OutputLines(content), LineParser(decode));
            parsed.Some? ==> parsed.value != []
  {
    ParseLinesIff(OutputLines(content), LineParser(decode));
  }

  /** The parse loop of `submit_batch_and_save_results`: the tuples, or
      `None` when a line raises. */
  method ParseOutput(content: string, decode: string -> Option<ResultItem>) returns (rows: Option<seq<ParaphraseRow>>)
    ensures rows == ParseLines(OutputLines(content), LineParser(decode))
  {
    ghost var parse := LineParser(decode);
    var lines := OutputLines(content);
    var data: seq<ParaphraseRow> := [];
    var i := 0;
    while i < |lines|
      invariant 0 <= i <= |lines|
      invariant ParseLines(lines[..i], parse) == Some(data)
    {
      var line := lines[i];
      ParseLinesStep(lines, i, parse);
      var item := decode(line);
      if item.None? {
        // json.loads raises
        assert parse(line).None?;
        ParseLinesPrefixFails(lines, i + 1, parse);
        return None;
      }
      var row := ParseItem(item.value);
      assert parse(line) == row;
      if row.None? {
        // a KeyError, IndexError or AttributeError on a missing field
        ParseLinesPrefixFails(lines, i + 1, parse);
        return None;
      }
      data := data + [row.value];
      i := i + 1;
    }
    assert lines[..i] == lines;
    rows := Some(data);
  }

  /** A line answering one of our requests, with a well-formed body, gives
      back the id of the sentence the request was built from. */
  lemma ResultMatchesRequest(s: SourceSentence, idx: nat, model: string, prompt: string -> string, item: ResultItem)
    requires s.id >= 0
    requires item.customId == Some(MakeRequest(s, idx, model, prompt).customId)
    requires ParseItem(item).Some?
    ensures ParseItem(item).value.originalSentenceId == IntToString(s.id)
  {
    CustomIdRoundTrip(s.id, idx);
  }

  // -------------------------------------------------------------- polling

  datatype BatchStatus =
    | Validating | InProgress | Finalizing | Completed | Failed | Expired | Cancelling | Cancelled

  /** The statuses that end the polling; `expired` is not among them. */
  predicate Terminal(status: BatchStatus) {
    status == Completed || status == Failed || status == Cancelled
  }

  /** What `client.batches.retrieve` reports. */
  datatype Snapshot = Snapshot(status: BatchStatus, outputFileId: Option<string>)

  /** What one call of `submit_batch_and_save_results` does, as seen from
      outside: it returns, having handed `inserted` to the datastore when
      that is `Some`, or it raises. Returning at the 24-hour timeout and
      returning at a terminal status without output look the same. */
  datatype Outcome = Returned(inserted: Option<seq<ParaphraseRow>>) | Raised

  /** `if batch.output_file_id`: present and not empty. */
  predicate HasOutput(s: Snapshot) {
    s.outputFileId.Some? && s.outputFileId.value != ""
  }

  /** The outcome once a terminal snapshot has been seen. */
  function Finish(s: Snapshot, download: string -> string, decode: string -> Option<ResultItem>): Outcome {
    if !HasOutput(s) then Returned(None)
    else
      match ParseLines(OutputLines(download(s.outputFileId.value)), LineParser(decode))
      case None => Raised
      case Some(rows) => if rows != [] then Returned(Some(rows)) else Returned(None)
  }

  /** The most polls that fit in the budget: `TIMEOUT / POLL_INTERVAL`. */
  const MAX_POLLS := 2880

  /** The clock reading taken before poll `k` is within the budget. */
  predicate WithinBudget(now: nat -> int, k: nat) {
    now(k + 1) - now(0) < TIMEOUT
  }

  /** At least the 30-second sleep separates clock readings `k` and `k + 1`. */
  predicate SleptBetween(now: nat -> int, k: nat) {
    now(k) + POLL_INTERVAL <= now(k + 1)
  }

  /** Polls `0 .. m - 1` all happened within the budget and saw no
      terminal status. */
  predicate QuietPolls(now: nat -> int, retrieve: nat -> Snapshot, m: nat) {
    forall k :: 0 <= k < m ==> WithinBudget(now, k) && !Terminal(retrieve(k).status)
  }

  /** A poll within the budget that saw no terminal status extends the run. */
  lemma QuietPollsExtend(now: nat -> int, retrieve: nat -> Snapshot, m: nat)
    requires QuietPolls(now, retrieve, m)
    requires WithinBudget(now, m) && !Terminal(retrieve(m).status)
    ensures QuietPolls(now, retrieve, m + 1)
  {
  }

  /** A quiet run is quiet up to its last poll, which was itself quiet. */
  lemma QuietPollsLast(now: nat -> int, retrieve: nat -> Snapshot, m: nat)
    requires m > 0 && QuietPolls(now, retrieve, m)
    ensures QuietPolls(now, retrieve, m - 1)
    ensures WithinBudget(now, m - 1) && !Terminal(retrieve(m - 1).status)
  {
  }

  /** The body of the terminal branch: download and parse the output when
      there is one, and hand a non-empty parse to the datastore. */
  method SaveResults(batch: Snapshot, download: string -> string, decode: string -> Option<ResultItem>)
    returns (outcome: Outcome)
    ensures outcome == Finish(batch, download, decode)
  {
    outcome := Returned(None);
    if HasOutput(batch) {
      var content := download(batch.outputFileId.value);
      var parsed := ParseOutput(content, decode);
      if parsed.None? {
        outcome := Raised;
      } else if parsed.value != [] {
        outcome := Returned(Some(parsed.value));
      }
    }
  }

  /** The polling loop of `submit_batch_and_save_results`. `now(0)` is the
      start time and `now(k + 1)` the clock reading taken before poll `k`;
      every poll that sees no terminal status is followed by a 30-second
      sleep. `retrieve(k)` is the snapshot poll `k` returns. `polls` counts
      the polls made; `finished` says whether the last one saw a terminal
      status. */
  method PollBatch(now: nat -> int, retrieve: nat -> Snapshot) returns (polls: nat, finished: bool)
    requires now(0) <= now(1)
    requires forall k: nat :: 1 <= k ==> SleptBetween(now, k)
    // a poll happens only within the budget, and the polling is bounded
    ensures forall k :: 0 <= k < polls ==> WithinBudget(now, k)
    ensures polls <= MAX_POLLS
    // the polls before the last one saw no terminal status
    ensures forall k :: 0 <= k < polls - 1 ==> !Terminal(retrieve(k).status)
    // it stops at the first terminal status, or when the budget is spent
    ensures finished <==> polls > 0 && Terminal(retrieve(polls - 1).status)
    ensures !finished ==> !WithinBudget(now, polls)
  {
    var startTime := now(0);
    polls := 0;
    while now(polls + 1) - startTime < TIMEOUT
      invariant QuietPolls(now, retrieve, polls)
      invariant now(polls + 1) - startTime >= POLL_INTERVAL * polls
      invariant polls <= MAX_POLLS
      decreases TIMEOUT - (now(polls + 1) - startTime)
    {
      var batch := retrieve(polls);
      assert WithinBudget(now, polls);
      if Terminal(batch.status) {
        polls := polls + 1;
        finished := true;
        return;
      }
      QuietPollsExtend(now, retrieve, polls);
      polls := polls + 1;
      // time.sleep(30)
      assert SleptBetween(now, polls);
    }
    if polls > 0 {
      QuietPollsLast(now, retrieve, polls);
    }
    finished := false;
  }

  /** `submit_batch_and_save_results` once the batch is submitted: poll, and
      on a terminal status save the results. `download` gives the content
      of an output file by its id. */
  method SubmitBatchAndSaveResults(now: nat -> int, retrieve: nat -> Snapshot,
                                   download: string -> string, decode: string -> Option<ResultItem>)
    returns (outcome: Outcome, polls: nat)
    requires now(0) <= now(1)
    requires forall k: nat :: 1 <= k ==> SleptBetween(now, k)
    ensures forall k :: 0 <= k < polls ==> WithinBudget(now, k)
    ensures polls <= MAX_POLLS
    ensures forall k :: 0 <= k < polls - 1 ==> !Terminal(retrieve(k).status)
    ensures if polls > 0 && Terminal(retrieve(polls - 1).status)
            then outcome == Finish(retrieve(polls - 1), download, decode)
            else !WithinBudget(now, polls) && outcome == Returned(None)
  {
    var finished;
    polls, finished := PollBatch(now, retrieve);
    if finished {
      outcome := SaveResults(retrieve(polls - 1), download, decode);
    } else {
      outcome := Returned(None);
    }
  }
}
