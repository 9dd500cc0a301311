/** The two tables the pipeline writes row by row: `original_sentences`,
    where a sentence is inserted only when its corpus token number is not yet
    present, and `llm_classification`, which only grows. The SQL connection is
    replaced by the rows themselves. */
module Store {
  import opened Wrappers

  /** A row of `original_sentences`, its columns in the order of the INSERT. */
  datatype OriginalSentence = OriginalSentence(
    expressionId: int,
    sentence: string,
    tokenNumber: int,
    corpusName: string,
    sources: string,
    website: string,
    title: string,
    crawlDate: string,
    url: string,
    topic: string,
    genre: string)

  /** A row of `llm_classification`. The model is the configured model value,
      which a dictionary configuration may leave out (SQL NULL). */
  datatype LlmClassification = LlmClassification(
    key: int,
    classification: string,
    comments: string,
    model: Option<string>,
    fingerprint: string)

  /** `rows` holds a sentence with token number `t`. */
  predicate Present(rows: seq<OriginalSentence>, t: int) {
    exists i :: 0 <= i < |rows| && rows[i].tokenNumber == t
  }

  /** No two rows share a token number. */
  predicate DistinctTokens(rows: seq<OriginalSentence>) {
    forall i, j :: 0 <= i < j < |rows| ==> rows[i].tokenNumber != rows[j].tokenNumber
  }

  /** `SELECT COUNT(*) ... WHERE token_number = t`. */
  function CountToken(rows: seq<OriginalSentence>, t: int): (n: nat)
    ensures n <= |rows|
  {
    if rows == [] then 0
    else CountToken(rows[..|rows| - 1], t) + (if rows[|rows| - 1].tokenNumber == t then 1 else 0)
  }

  /** The count is positive exactly when some row carries the token. */
  lemma {:induction false} CountTokenPositive(rows: seq<OriginalSentence>, t: int)
    ensures CountToken(rows, t) > 0 <==> Present(rows, t)
  {
    if rows != [] {
      var init := rows[..|rows| - 1];
      CountTokenPositive(init, t);
      if Present(init, t) {
        var i :| 0 <= i < |init| && init[i].tokenNumber == t;
        assert rows[i].tokenNumber == t;
      }
      if Present(rows, t) && rows[|rows| - 1].tokenNumber != t {
        var i :| 0 <= i < |rows| && rows[i].tokenNumber == t;
        assert init[i].tokenNumber == t;
      }
    }
  }

  /** The table after the check-then-insert loop over `sentences`: each one
      is appended unless its token number is already in the table as it
      stands at that moment, earlier inserts of the same loop included. */
  function InsertNew(rows: seq<OriginalSentence>, sentences: seq<OriginalSentence>): seq<OriginalSentence>
  {
    if sentences == [] then rows
    else
      var before := InsertNew(rows, sentences[..|sentences| - 1]);
      var s := sentences[|sentences| - 1];
      if Present(before, s.tokenNumber) then before else before + [s]
  }

  /** `sentences` carries token number `t`. */
  predicate Offers(sentences: seq<OriginalSentence>, t: int) {
    exists j :: 0 <= j < |sentences| && sentences[j].tokenNumber == t
  }

  /** Existing rows stay as they are, in front; the new rows are input
      sentences, and the tokens of the table become those of the old table
      plus those of the input. */
  lemma {:induction false} InsertNewShape(rows: seq<OriginalSentence>, sentences: seq<OriginalSentence>)
    ensures |rows| <= |InsertNew(rows, sentences)| <= |rows| + |sentences|
    ensures InsertNew(rows, sentences)[..|rows|] == rows
    ensures forall k :: |rows| <= k < |InsertNew(rows, sentences)| ==> InsertNew(rows, sentences)[k] in sentences
    ensures forall t :: Present(InsertNew(rows, sentences), t) <==> Present(rows, t) || Offers(sentences, t)
  {
    if sentences != [] {
      var init := sentences[..|sentences| - 1];
      var s := sentences[|sentences| - 1];
      InsertNewShape(rows, init);
      var before := InsertNew(rows, init);
      assert (before + [s])[..|rows|] == before[..|rows|];
      forall k | |rows| <= k < |before| ensures before[k] in sentences {
        assert before[k] in init;
      }
      forall t ensures Present(InsertNew(rows, sentences), t) <==> Present(rows, t) || Offers(sentences, t) {
        if Offers(init, t) {
          var j :| 0 <= j < |init| && init[j].tokenNumber == t;
          assert sentences[j].tokenNumber == t;
        }
        if Offers(sentences, t) && s.tokenNumber != t {
          var j :| 0 <= j < |sentences| && sentences[j].tokenNumber == t;
          assert init[j].tokenNumber == t;
        }
        if !Present(before, s.tokenNumber) {
          var after := before + [s];
          if Present(before, t) {
            var i :| 0 <= i < |before| && before[i].tokenNumber == t;
            assert after[i].tokenNumber == t;
          }
          if Present(after, t) && s.tokenNumber != t {
            var i :| 0 <= i < |after| && after[i].tokenNumber == t;
            assert before[i].tokenNumber == t;
          }
          assert after[|before|] == s;
        }
      }
    }
  }

  /** The `i`-th sentence is inserted exactly when its token number is
      neither in the table nor on an earlier input sentence; otherwise that
      step leaves the table unchanged. */
  lemma InsertedIff(rows: seq<OriginalSentence>, sentences: seq<OriginalSentence>, i: nat)
    requires i < |sentences|
    ensures var t := sentences[i].tokenNumber;
            InsertNew(rows, sentences[..i + 1]) ==
              if Present(rows, t) || Offers(sentences[..i], t)
              then InsertNew(rows, sentences[..i])
              else InsertNew(rows, sentences[..i]) + [sentences[i]]
  {
    assert sentences[..i + 1][..i] == sentences[..i];
    InsertNewShape(rows, sentences[..i]);
  }

  /** When every input token is already in the table, nothing is inserted. */
  lemma {:induction false} InsertNewKnown(rows: seq<OriginalSentence>, sentences: seq<OriginalSentence>)
    requires forall j :: 0 <= j < |sentences| ==> Present(rows, sentences[j].tokenNumber)
    ensures InsertNew(rows, sentences) == rows
  {
    if sentences != [] {
      InsertNewKnown(rows, sentences[..|sentences| - 1]);
    }
  }

  /** Inserting the same sentences a second time adds no row. */
  lemma InsertNewIdempotent(rows: seq<OriginalSentence>, sentences: seq<OriginalSentence>)
    ensures InsertNew(InsertNew(rows, sentences), sentences) == InsertNew(rows, sentences)
  {
    InsertNewShape(rows, sentences);
    forall j | 0 <= j < |sentences| ensures Present(InsertNew(rows, sentences), sentences[j].tokenNumber) {
      assert Offers(sentences, sentences[j].tokenNumber);
    }
    InsertNewKnown(InsertNew(rows, sentences), sentences);
  }

  /** A table whose token numbers are distinct keeps them distinct. */
  lemma {:induction false} InsertNewKeepsDistinct(rows: seq<OriginalSentence>, sentences: seq<OriginalSentence>)
    requires DistinctTokens(rows)
    ensures DistinctTokens(InsertNew(rows, sentences))
  {
    if sentences != [] {
      var init := sentences[..|sentences| - 1];
      var s := sentences[|sentences| - 1];
      InsertNewKeepsDistinct(rows, init);
      var before := InsertNew(rows, init);
      if !Present(before, s.tokenNumber) {
        var after := before + [s];
        forall i, j | 0 <= i < j < |after| ensures after[i].tokenNumber != after[j].tokenNumber {
          if j == |before| {
            assert before[i].tokenNumber == after[i].tokenNumber;
          }
        }
      }
    }
  }

  class DataStore {
    var originalSentences: seq<OriginalSentence>
    var llmClassifications: seq<LlmClassification>

    /** A connection to a database holding the given tables. */
    constructor (originalSentences: seq<OriginalSentence>, llmClassifications: seq<LlmClassification>)
      ensures this.originalSentences == originalSentences
      ensures this.llmClassifications == llmClassifications
    {
      this.originalSentences := originalSentences;
      this.llmClassifications := llmClassifications;
    }

    /** Whether a sentence with this token number is stored. */
    method TokenExists(tokenNumber: int) returns (exists_: bool)
      ensures exists_ <==> Present(originalSentences, tokenNumber)
    {
      var count := CountToken(originalSentences, tokenNumber);
      CountTokenPositive(originalSentences, tokenNumber);
      exists_ := count > 0;
    }

    /** Inserts each sentence whose token number is not stored yet. */
    method InsertOriginalSentences(sentences: seq<OriginalSentence>)
      modifies this
      ensures originalSentences == InsertNew(old(originalSentences), sentences)
      ensures llmClassifications == old(llmClassifications)
    {
      var i := 0;
      while i < |sentences|
        invariant 0 <= i <= |sentences|
        invariant originalSentences == InsertNew(old(originalSentences), sentences[..i])
        invariant llmClassifications == old(llmClassifications)
      {
        var sentence := sentences[i];
        var known := TokenExists(sentence.tokenNumber);
        if !known {
          originalSentences := originalSentences + [sentence];
        }
        assert sentences[..i + 1][..i] == sentences[..i];
        i := i + 1;
      }
      assert sentences[..i] == sentences;
    }

    /** Appends one classification row; `comments` defaults to empty. */
    method InsertLlmClassification(key: int, classification: string, model: Option<string>,
                                   fingerprint: string, comments: string := "")
      modifies this
      ensures llmClassifications == old(llmClassifications) + [LlmClassification(key, classification, comments, model, fingerprint)]
      ensures originalSentences == old(originalSentences)
    {
      llmClassifications := llmClassifications + [LlmClassification(key, classification, comments, model, fingerprint)];
    }
  }
}
