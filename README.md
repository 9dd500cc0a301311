# llm_sensitivity core, modelled in Dafny

This project models the sequential logic of four files in the sentence-sensitivity pipeline:

- **Sentence collection.** `SketchEngineFetcher.fetch_sentences` and the `main` loop around it:
  - build a CQL query from an expression;
  - page through the Sketch Engine concordance;
  - rebuild each line's sentence and metadata;
  - filter lines by genre and word count, deduplicate them by token number, and sample the result;
  - store each expression's sentences and keep a running total.
- **Batch paraphrasing.** It writes one chat-completion request per sentence and repetition, with `custom_id` `"{id}-{idx}"`. It polls the batch job until a terminal status or the 24-hour budget runs out. It then reconciles the output lines into `(id, paraphrase, model, fingerprint)` tuples.
- **The data store.** `token_exists`, the check-then-insert loop of `insert_original_sentences`, and the single append of `insert_llm_classification`.
- **Local classification.** It resolves the model configuration, takes the first choice of the local model's answer, and stores every label that is not `None`.

## How the system is represented

The HTTP answers, the batch API, the clock, the local model, JSON decoding and prompt formatting are parameters of the model:

- **Concordance answers** are a supplied finite sequence of `Response` values. Each is a page of lines, the `{"Lines": None}` value the retry policy returns once it gives up, an object without `Lines`, or a request error.
- **Batch polling** takes three functions:
  - `retrieve(k)`, the snapshot that poll number `k` returns;
  - `now(0)`, the start time, and `now(k + 1)`, the clock reading the loop condition takes before poll number `k`;
  - `download(id)`, the content of the output file with that id.
- **Result lines** are decoded by `decode`, which returns `None` where `json.loads` raises.
- **The local model and the prompt template's `format`** are functions.

`DataStore` and `SketchEngineFetcher` are classes whose fields the methods update:

- `DataStore` holds the two tables its methods write, as sequences of rows.
- `SketchEngineFetcher.seenToknums` is the seen-set. It lives as long as the fetcher.

Each loop of the source is a `while` loop. All but one are proved against a specification function over values, and the properties are proved as lemmas about those functions:

- `InsertNew` for the insert loop of the data store;
- `CollectPage`, `CollectAll` and `HarvestAfter` for the paging loop of `fetch_sentences`;
- `FetchOutcome`, `RunOutcome` and `InsertBatches` for the loop of `main`;
- `Expand` for the request loop;
- `ParseLines` for the result loop;
- `Rows` for the classification loop.

The polling loop (`PollBatch`) is the exception. It is proved against properties rather than a function:

- every poll happens within the 24-hour budget;
- there are at most 2880 polls, given the 30-second gaps the clock readings must show;
- every poll but the last saw a non-terminal status;
- it stops at the first terminal status, or once the budget is spent.

`SubmitBatchAndSaveResults` then ties the outcome to `Finish` of the first terminal snapshot.

Python string behaviour is written out in `PyStr`:

- `str.split()` over Python's whitespace set;
- `split(c)` and `sep.join`;
- `strip()`;
- `replace(p, "")` as a single left-to-right pass;
- `lower()`;
- `str(int)`.

### Behaviour as the code has it

The model follows the code at these points, where its names, comments or log messages suggest something else:

- **The page index never advances.** Every request of one `fetch_sentences` call is the same request, with `fromp` 1 and page size 20000 (`FetchSentences` ensures it).
- **The seen-set is never reset** between expressions. No token is returned for two expressions (`FetchAndStoreAll` ensures `Disjoint(batches)`).
- **One malformed result line makes the whole parse raise.** That includes the single `''` line of an empty output file. Nothing is inserted then (`ParseLinesIff`, `LineFails`).
- **Output is fetched at any terminal status** (completed, failed or cancelled) whenever `output_file_id` is set. `expired` is not terminal, so polling goes on until the budget is spent.
- **Reaching the 24-hour budget just returns.** The outcome is the same as a terminal status without output (`Outcome.Returned(None)`).
- **The `if paraphrased_data` guard never skips the insert.** A parse that succeeds is never empty (`ParsedOutputNonEmpty`).
- **A first choice without content makes `classify_with_mistral` raise.** `None.strip()` fails and a missing `message` is a `KeyError`. That ends `create_and_classify_input`, and the rows already stored stay stored. Only a missing or empty `choices` yields `None`, which is skipped. An empty label is stored.
- **A `null` model is stored as `None`.** The `model` key is only required to be present, and a JSON `null` passes into the tuple as `None` (`ParseItem`).
- **`custom_id.split('-')[0]` gives back the id's text only for an id that is not negative.** A negative id comes back as `""` (`CustomIdRoundTrip`).

## Model

| member | source | states |
|---|---|---|
| Store.DataStore.constructor | data_store.py:5-7 | A connection opens on the tables as they stand. |
| Store.CountToken | data_store.py:11-13 | The `COUNT(*)` of rows with a token number, over the rows in table order; never more than the number of rows. |
| Store.CountTokenPositive | data_store.py:9-14 | The `COUNT(*)` for a token is positive exactly when some row carries that token number. |
| Store.DataStore.TokenExists | data_store.py:9-14 | True if and only if at least one stored sentence has the given token number. |
| Store.DataStore.InsertOriginalSentences | data_store.py:21-31 | The table becomes `InsertNew(old table, sentences)`: each sentence is checked against the table as it stands at that moment, earlier inserts of the same call included. The classification table is unchanged. |
| Store.InsertNew | data_store.py:28-30 | The table after the loop: each sentence in turn is appended unless its token number is present in the table as it stands, earlier appends of the same loop included. |
| Store.InsertNewShape | data_store.py:28-31 | Existing rows stay unchanged, in front. Every added row is an input sentence, and at most one row is added per input. The tokens afterwards are exactly the old tokens plus the input tokens. |
| Store.InsertedIff | data_store.py:28-30 | The `i`-th input is appended if and only if its token is neither in the table nor on an earlier input. Otherwise that step changes nothing, so of several inputs sharing a token only the first is inserted. |
| Store.InsertNewKnown | data_store.py:28-30 | When every input token is already stored, nothing is inserted. |
| Store.InsertNewIdempotent | data_store.py:28-30 | Inserting the same sentences a second time adds no row. |
| Store.InsertNewKeepsDistinct | data_store.py:28-30 | A table whose token numbers are pairwise distinct keeps them distinct. |
| Store.DataStore.InsertLlmClassification | data_store.py:75-82 | Appends exactly the row `(key, classification, comments, model, fingerprint)`, with `comments` empty by default. The sentence table is unchanged. |
| SentenceFetcher.Clause | sentence_construction/sentence_fetcher.py:31 | The CQL clause `[lc="w"]` for one word. |
| SentenceFetcher.Clauses | sentence_construction/sentence_fetcher.py:31 | One clause per word, in order: the `i`-th is the clause of the `i`-th word. |
| SentenceFetcher.BuildQuery | sentence_construction/sentence_fetcher.py:30-32 | The query starts with `q`. |
| SentenceFetcher.QueryClauses | sentence_construction/sentence_fetcher.py:30-32 | After the `q`, the query's whitespace-separated tokens are exactly one `[lc="w"]` clause per word of the expression, in order. |
| SentenceFetcher.Fragments | sentence_construction/sentence_fetcher.py:69 | The line's `Left`, `Kwic` and `Right` fragments concatenated in that order, a missing key contributing none. |
| SentenceFetcher.Texts | sentence_construction/sentence_fetcher.py:69-70 | One text per fragment, in order; a fragment without `str` contributes `""`. |
| SentenceFetcher.SentenceOf | sentence_construction/sentence_fetcher.py:69-70 | The rebuilt sentence neither starts nor ends with whitespace. |
| SentenceFetcher.WordCount | sentence_construction/sentence_fetcher.py:71 | The number of `split()` words of the rebuilt sentence. |
| SentenceFetcher.WordCountIgnoresTrim | sentence_construction/sentence_fetcher.py:70-71 | The word count of the trimmed sentence equals that of the untrimmed text. |
| SentenceFetcher.RefKey | sentence_construction/sentence_fetcher.py:75 | The key is the prefix of the item up to its first `=`, or the whole item when it has no `=`. |
| SentenceFetcher.RefValue | sentence_construction/sentence_fetcher.py:75 | The value is the segment between the first and the second `=` (or the end). It is `""` when the item has no `=`, and never holds a `=`. |
| SentenceFetcher.Get | sentence_construction/sentence_fetcher.py:76 | `d.get(key, default)`: the key's value when present, the default otherwise. |
| SentenceFetcher.Metadata | sentence_construction/sentence_fetcher.py:75 | The metadata dictionary of a line, built from its `Refs`, none when the key is missing. |
| SentenceFetcher.ParseRefs | sentence_construction/sentence_fetcher.py:75 | The metadata dictionary: each `Refs` item in order sets its key to its value, so a later item with the same key overwrites an earlier one. |
| SentenceFetcher.GenreOf | sentence_construction/sentence_fetcher.py:76 | The lower-cased `Genre` entry of the metadata, `""` when there is none. |
| SentenceFetcher.TokenOf | sentence_construction/sentence_fetcher.py:72 | The line's `toknum`, 0 when it is missing. |
| SentenceFetcher.RecordOf | sentence_construction/sentence_fetcher.py:82-90 | The stored row: expression id, sentence, token number, corpus name, `Sketch Engine`, then the website, title, crawl date, URL and topic entries of the metadata (`""` when missing), and the lower-cased genre. |
| SentenceFetcher.Accepts | sentence_construction/sentence_fetcher.py:78-81 | A line is kept when its token number is unseen, its genre is not `reference/encyclopedia`, `news` or `legal`, and its word count lies in the inclusive range. |
| SentenceFetcher.Step | sentence_construction/sentence_fetcher.py:78-92 | An accepted line appends its row to the pool and adds its token number to the seen-set; any other line changes neither. |
| SentenceFetcher.ParseRefsKeys | sentence_construction/sentence_fetcher.py:75 | The metadata keys are exactly the keys of the reference items. |
| SentenceFetcher.ParseRefsLastWins | sentence_construction/sentence_fetcher.py:75 | A key maps to the value of the last item carrying it. |
| SentenceFetcher.AcceptedEligible | sentence_construction/sentence_fetcher.py:78-90 | The row built for an accepted line passes every filter: genre not excluded, word count in range, labelled with the expression, corpus and `Sketch Engine`. It carries the line's token number, which was unseen. |
| SentenceFetcher.AcceptKeepsConsistent | sentence_construction/sentence_fetcher.py:78-92 | Appending an accepted line and marking its token seen keeps the pool eligible and its tokens distinct and new. The seen-set stays the old seen-set plus the pool's tokens. |
| SentenceFetcher.CollectPage | sentence_construction/sentence_fetcher.py:68-92 | The inner loop: the page's lines, in order, each applied by `Step` to the harvest the earlier lines left. |
| SentenceFetcher.CollectAll | sentence_construction/sentence_fetcher.py:42-92 | The paging loop's effect on the harvest: each page among the responses, in order, collected by `CollectPage`; any other response leaves the harvest as it is. |
| SentenceFetcher.HarvestAfter | sentence_construction/sentence_fetcher.py:36-92 | The pool and seen-set after the first `k` responses, starting from an empty pool and the fetcher's seen-set. |
| SentenceFetcher.CollectPageConsistent | sentence_construction/sentence_fetcher.py:67-92 | Processing a page keeps the harvest consistent and only appends to the pool. |
| SentenceFetcher.CollectAllConsistent | sentence_construction/sentence_fetcher.py:42-92 | Processing any sequence of responses keeps the harvest consistent and only appends. |
| SentenceFetcher.HarvestAfterStep | sentence_construction/sentence_fetcher.py:54-92 | One more response changes the harvest by its page's lines, and not at all when it is not a page. |
| SentenceFetcher.HarvestAfterConsistent | sentence_construction/sentence_fetcher.py:19-92 | Every harvest reached from a seen-set is consistent with it. |
| SentenceFetcher.RetryKeepsHarvest | sentence_construction/sentence_fetcher.py:54-61 | A request error or an answer without `Lines` leaves the pool and the seen-set unchanged. |
| SentenceFetcher.Continues | sentence_construction/sentence_fetcher.py:42-105 | After a request error or an answer without `Lines` the loop asks again. After `Lines` that are null or empty it stops. After a page it goes on only when the page added a sentence and the pool is still short of `num_sentences`. |
| SentenceFetcher.GoesOn | sentence_construction/sentence_fetcher.py:42-105 | The loop asks again after response `k` exactly when `Continues` holds for that response, the pool size before it and the pool size after it. |
| SentenceFetcher.KeptGoing | sentence_construction/sentence_fetcher.py:42-105 | The loop went on after each of the first `m` responses. |
| SentenceFetcher.IsSample | sentence_construction/sentence_fetcher.py:96 | `random.sample(pool, n)`: exactly `n` elements, taken from pairwise different pool positions. |
| SentenceFetcher.Selected | sentence_construction/sentence_fetcher.py:94-98 | The list returned for a final pool: empty when no sentence is asked for, a sample of `num_sentences` when the pool is at least that large, the whole pool otherwise. |
| SentenceFetcher.SelectedFromPool | sentence_construction/sentence_fetcher.py:95-98 | The selection from a pool with distinct tokens has distinct tokens, all taken from the pool, and never more than requested. |
| SentenceFetcher.FetchedSentences | sentence_construction/sentence_fetcher.py:29-107 | Whatever the responses, the result has at most `num_sentences` sentences. Their token numbers are distinct, were unseen before the call and are seen after it, and every sentence passes every filter. |
| SentenceFetcher.RandomSample | sentence_construction/sentence_fetcher.py:96 | Exactly `n` elements drawn from pairwise different pool positions. |
| SentenceFetcher.SketchEngineFetcher.constructor | sentence_construction/sentence_fetcher.py:14-19 | Stores the credentials, corpus and URL, and starts with an empty seen-set. |
| SentenceFetcher.SketchEngineFetcher.ScanPage | sentence_construction/sentence_fetcher.py:67-92 | The new pool and seen-set are `CollectPage` of the page from the old ones. `newSentences` counts the appended lines. |
| SentenceFetcher.SketchEngineFetcher.FetchSentences | sentence_construction/sentence_fetcher.py:29-107 | Every request is `(corpus, query, fromp 1, 20000)`, and `num_sentences <= 0` makes none. The pool and the new seen-set are those of the responses consumed. The result is `[]`, a sample of exactly `num_sentences`, or the whole pool. The loop went on after every consumed response but the last, and stopped after the last one, unless the responses ran out. |
| SentenceFetcher.DisjointAppend | sentence_construction/sentence_fetcher.py:19-91 | Lists whose tokens were unseen when fetched never share a token. |
| SentenceFetcher.FetchExpression | sentence_construction/sentence_fetcher.py:119-120 | One expression's list is the `fetch_sentences` result for its own text: it returns the requests sent, each `(corpus, query of that expression, fromp 1, 20000)`, one per consumed response. The list is drawn from the harvest of those responses from the fetcher's seen-set, and the fetcher's new seen-set is that harvest's. The loop went on after every consumed response but the last and stopped after the last, unless the responses ran out. All its tokens are new to the fetcher. |
| SentenceFetcher.FetchOutcome | sentence_construction/sentence_fetcher.py:29-107 | What one `fetch_sentences` call for an expression makes of a seen-set and its responses: the requests sent, all the same request for that expression's query and one per consumed response; the list drawn from their harvest; the seen-set that harvest leaves; and the stopping rule. |
| SentenceFetcher.RunOutcome | sentence_construction/sentence_fetcher.py:111-128 | The `main` loop so far: the seen-set starts empty, and each expression's requests, list and seen-set are the `FetchOutcome` of its own text and responses from the seen-set the previous expression left. |
| SentenceFetcher.FetchAndStoreAll | sentence_construction/sentence_fetcher.py:111-128 | The run is a `RunOutcome` of the supplied responses: each expression is queried with its own text. Starting from an empty seen-set, each list is drawn from the harvest of its expression's responses from the seen-set the previous expression left. The total equals the sum of the lists' lengths. The table equals inserting each list in turn. Each list satisfies `Fetched` for its expression, and no token is returned for two expressions. |
| SentenceFetcher.TotalLength | sentence_construction/sentence_fetcher.py:122 | The running total: the sum of the lengths of the lists returned so far. |
| SentenceFetcher.InsertBatches | sentence_construction/sentence_fetcher.py:121 | The sentence table after inserting each returned list in turn by `InsertNew`. |
| Paraphrase.CustomId | llm_paraphrasing/paraphrase.py:40 | `f"{id}-{idx}"`: the id's decimal text, a `-`, and the index's decimal text. |
| Paraphrase.RecoverId | llm_paraphrasing/paraphrase.py:102 | `custom_id.split('-')[0]`: the text before the first `-`, or all of it when there is none. |
| Paraphrase.MakeRequest | llm_paraphrasing/paraphrase.py:38-52 | Request `idx` for a sentence: custom id `"{id}-{idx}"`, `POST` to `/v1/chat/completions`, and a body with the configured model, one user message holding the formatted prompt, `max_tokens` 70 and temperature 1. |
| Paraphrase.Expand | llm_paraphrasing/paraphrase.py:35-53 | The request lines in the order written: for each sentence in turn, its requests for `idx` in `range(num_paraphrases)`. |
| Paraphrase.CustomIdRoundTrip | llm_paraphrasing/paraphrase.py:40-102 | Splitting `"{id}-{idx}"` at `-` and taking the first piece gives `str(id)` if and only if `id >= 0`. A negative id gives `""`. |
| Paraphrase.Count | llm_paraphrasing/paraphrase.py:37 | The length of `range(n)`: `n`, or 0 for a negative `n`. |
| Paraphrase.Repeats | llm_paraphrasing/paraphrase.py:37-52 | `range(n)` requests for one sentence; the `k`-th is request `k` of that sentence. |
| Paraphrase.ExpandLength | llm_paraphrasing/paraphrase.py:35-37 | The batch holds `len(sentences) * num_paraphrases` requests (none for a negative count). |
| Paraphrase.ExpandIndex | llm_paraphrasing/paraphrase.py:35-53 | Request `k` of sentence `i` sits at position `i * num_paraphrases + k`. |
| Paraphrase.ExpandAt | llm_paraphrasing/paraphrase.py:35-53 | Both facts for all `i` and `k`: exact length, in sentence-major order with `idx` ascending. |
| Paraphrase.ExpandRequests | llm_paraphrasing/paraphrase.py:38-52 | Every request is a `POST` to `/v1/chat/completions` with the configured model, `max_tokens` 70, temperature 1 and one user message. That message is the formatted prompt of some sentence, and when that sentence's id is not negative the custom id recovers it. |
| Paraphrase.CreateBatchInputFile | llm_paraphrasing/paraphrase.py:31-56 | The lines written are exactly `Expand(sentences, num_paraphrases)`. |
| Paraphrase.FirstContent | llm_paraphrasing/paraphrase.py:93-94 | `response_body['choices'][0]['message']['content']`, absent where any step of the lookup is missing. |
| Paraphrase.ParseItem | llm_paraphrasing/paraphrase.py:91-103 | A tuple exists if and only if the custom id, body, first choice's content and `model` key are all present. It then holds the recovered id, the stripped content, the body's model (`None` for a JSON `null`), and the fingerprint, `unknown` when absent or `null`. |
| Paraphrase.LineParser | llm_paraphrasing/paraphrase.py:91-103 | One line of the result loop: `json.loads` and then the field lookups, failing where either raises. |
| Paraphrase.ParseLines | llm_paraphrasing/paraphrase.py:89-103 | The result loop: the lines' tuples in order, or a failure as soon as one line fails. |
| Paraphrase.ParseLinesAllParse | llm_paraphrasing/paraphrase.py:89-103 | When every line parses, the result has one tuple per line, in line order. |
| Paraphrase.LineFails | llm_paraphrasing/paraphrase.py:90-103 | One line that does not parse makes the whole parse fail. |
| Paraphrase.ParseLinesIff | llm_paraphrasing/paraphrase.py:89-103 | The parse succeeds if and only if every line parses, and then yields one tuple per line, in order. |
| Paraphrase.ParseLinesPrefixFails | llm_paraphrasing/paraphrase.py:90-103 | A failure on a prefix of the lines is a failure of the whole parse. |
| Paraphrase.ParseLinesStep | llm_paraphrasing/paraphrase.py:90-103 | One more line either fails the parse or appends its tuple. |
| Paraphrase.OutputLines | llm_paraphrasing/paraphrase.py:90 | `content.strip().split('\n')` is never an empty list. |
| Paraphrase.ParsedOutputNonEmpty | llm_paraphrasing/paraphrase.py:90-106 | A successful parse of an output file is never empty, so the insert is never skipped. |
| Paraphrase.ParseOutput | llm_paraphrasing/paraphrase.py:89-103 | The loop returns `ParseLines` of the output lines: all tuples in order, or a failure at the first bad line. |
| Paraphrase.ResultMatchesRequest | llm_paraphrasing/paraphrase.py:40-102 | A result line answering one of our requests gives back the text of that sentence's id. |
| Paraphrase.Terminal | llm_paraphrasing/paraphrase.py:78 | The polling stops at `completed`, `failed` and `cancelled`, and at no other status. |
| Paraphrase.HasOutput | llm_paraphrasing/paraphrase.py:80 | `output_file_id` is present and not empty. |
| Paraphrase.Finish | llm_paraphrasing/paraphrase.py:80-107 | After a terminal status: without output it returns having inserted nothing. Otherwise it parses the downloaded lines, raising on a bad line, and hands the tuples to the datastore when there are any. |
| Paraphrase.SaveResults | llm_paraphrasing/paraphrase.py:80-107 | The terminal branch's outcome is `Finish`. Without an output file it returns. Otherwise it either raises on a bad line or hands the non-empty tuples to the datastore. |
| Paraphrase.WithinBudget | llm_paraphrasing/paraphrase.py:75 | The loop condition before poll `k`: less than 24 hours have passed since the start time. |
| Paraphrase.PollBatch | llm_paraphrasing/paraphrase.py:72-110 | Every poll happens within 24 hours of the start, and there are at most 2880 polls. All polls but the last saw a non-terminal status. It reports a finish exactly when the last poll saw a terminal status; otherwise the next clock reading is past the budget. |
| Paraphrase.SubmitBatchAndSaveResults | llm_paraphrasing/paraphrase.py:71-110 | Every poll happens within 24 hours of the start, and there are at most 2880 polls. All polls but the last saw a non-terminal status. It ends with `Finish` of the first terminal snapshot, or, once the budget is spent, returns with nothing inserted. |
| Chat.UserTurn | llm_paraphrasing/paraphrase.py:45-48 | Exactly one message, with role `user` and the given content. |
| Classifiers.Lookup | llm_classification/llm_classifiers.py:20-21 | `dict.get`: present exactly for a key in the map, with its value. |
| Classifiers.GetModelInfo | llm_classification/llm_classifiers.py:17-29 | A dict gives `(get("name"), get("model"))`, each absent when the key is missing. A string gives itself twice, and anything else gives its `str()` twice. |
| Classifiers.InferenceRequest | llm_classification/llm_classifiers.py:32-38 | One user message with the prompt, `max_tokens` 10, temperature 0. |
| Classifiers.ClassifyWithMistral | llm_classification/llm_classifiers.py:31-43 | `None` if and only if `choices` is missing or empty. It raises if and only if the first choice has no content. Otherwise the label is the stripped content. |
| Classifiers.Classifier | llm_classification/llm_classifiers.py:58-59 | An item's classification: the prompt template formatted with its sentence, sent to the local model. |
| Classifiers.RowFor | llm_classification/llm_classifiers.py:63-68 | The row inserted for a labelled item: its key, the label, empty comments, the model value and the fingerprint. |
| Classifiers.Rows | llm_classification/llm_classifiers.py:57-68 | The rows the loop inserts: one per item classified with a label, in item order; items classified `None` add none. |
| Classifiers.RowsStep | llm_classification/llm_classifiers.py:57-68 | One more item adds its row exactly when it is labelled. |
| Classifiers.RowsAppend | llm_classification/llm_classifiers.py:57-68 | The rows for two runs of items in sequence are the rows of each, concatenated. |
| Classifiers.RowsShape | llm_classification/llm_classifiers.py:55-68 | Every row carries the model value and fingerprint fixed before the loop, empty comments, and the key and label of an item classified with that label. There are never more rows than items. |
| Classifiers.RowsAllLabelled | llm_classification/llm_classifiers.py:57-68 | When every item is labelled, empty labels included, there is one row per item, in item order. |
| Classifiers.RowsNoneLabelled | llm_classification/llm_classifiers.py:57-68 | Items that all get `None` add no row. |
| Classifiers.ClassifyAndStore | llm_classification/llm_classifiers.py:58-68 | One pass: the item's classification, with its row appended exactly when it is a label. |
| Classifiers.CreateAndClassifyInput | llm_classification/llm_classifiers.py:46-69 | The items before `processed` did not raise, and the item at `processed`, if any, raised. The table gains exactly `Rows` of the processed items, in order. |
| PyStr.Words | sentence_construction/sentence_fetcher.py:71 | `split()` yields non-empty runs without whitespace. |
| PyStr.Join | sentence_construction/sentence_fetcher.py:31 | `sep.join(parts)`: the parts in order with the separator between neighbours, `""` for no parts. |
| PyStr.WordsOfJoin | sentence_construction/sentence_fetcher.py:30-31 | Splitting on whitespace undoes a single-space join of non-empty whitespace-free pieces. |
| PyStr.Strip | sentence_construction/sentence_fetcher.py:70 | The result is an infix with only whitespace around it, and does not itself start or end with whitespace. |
| PyStr.WordsOfStrip | sentence_construction/sentence_fetcher.py:70-71 | Stripping never changes the whitespace-separated words. |
| PyStr.RemoveAll | sentence_construction/sentence_fetcher.py:70 | `replace(pat, "")`: one left-to-right scan deleting each occurrence met, never lengthening the text. |
| PyStr.RemoveAllAbsent | sentence_construction/sentence_fetcher.py:70 | Removing a pattern that does not occur leaves the text as it is. |
| PyStr.RemoveAllSinglePass | sentence_construction/sentence_fetcher.py:70 | `replace` is one pass: `"<<s>s>"` loses one `<s>` and keeps the `<s>` formed around it. |
| PyStr.Lower | sentence_construction/sentence_fetcher.py:76 | Same length, with no upper-case ASCII letter left; only those letters change. |
| PyStr.SplitOn | sentence_construction/sentence_fetcher.py:75 | At least one piece, none holding the separator. The first piece is the prefix up to the first separator, and there are two or more pieces exactly when the separator occurs. |
| PyStr.SplitOnSecond | sentence_construction/sentence_fetcher.py:75 | The second piece is the first piece of what follows the first separator. |
| PyStr.JoinSplitOn | sentence_construction/sentence_fetcher.py:75 | Joining the pieces with the separator gives the text back. |
| PyStr.NatToString | llm_paraphrasing/paraphrase.py:40 | `str(n)` for a natural number: non-empty decimal digits with no leading zero except for 0 itself. |
| PyStr.NatToStringRoundTrip | llm_paraphrasing/paraphrase.py:40 | Reading back the decimal digits of `str(n)` gives `n`. |
| PyStr.IntToString | llm_paraphrasing/paraphrase.py:40 | `str(i)` is non-empty and holds a `-` exactly when `i` is negative, as its first character. |

## Left out

- HTTP through `requests` and the tenacity retry policy (5 attempts, exponential wait): only their outcomes are modelled, as `Response` values.
- `time.sleep` and `time.time`. The fetcher has no clock: the 60-second cooldown after a request error or an answer without `Lines` is dropped, and the retry is simply the next supplied response. The 30-second poll pause survives only as the requirement (`SleptBetween`) that consecutive supplied clock readings lie at least 30 seconds apart.
- The OpenAI client calls (file upload, batch creation, retrieval and content download), and the JSONL files written and read. JSON encoding and decoding are out as well: `decode` stands for `json.loads`, and result lines are decoded records whose fields may be missing.
- `insert_paraphrased_sentences`, called at llm_paraphrasing/paraphrase.py:106, is not defined in data_store.py: the model returns the tuples handed to it.
- psycopg2 connections, cursors, commits and `close`. The SQL `SELECT`s (`fetch_expressions`, `fetch_original_sentences`, `fetch_for_llm`) and `insert_classification_response_mistral` are out too, because their logic is SQL text. Their rows are inputs.
- Loading the prompt files and `str.format`: the formatted prompt is a function parameter.
- SHA-256 fingerprinting and `llama_cpp` model loading: the fingerprint and the model are parameters.
- `tqdm` progress bars, `print` diagnostics, argument parsing and the `__main__` blocks.
- ml_classification/sentence_construction/make_sentences_and_save.py and ml_classification/config.py are not part of this model; the configuration constants are parameters.
- SentenceFetcher.SketchEngineFetcher.FetchSentences: the supplied responses are finite, so running out of them also ends the loop. The source would keep requesting.
- SentenceFetcher.RandomSample: specified by the sampling property only, with no distribution. The body takes the first `n` positions, which meets the contract.
- PyStr.Lower: lower-cases ASCII letters only; Python's `str.lower()` also folds letters of other scripts.
- Classifiers.ClassifyWithMistral: a choice without `message` and a `message` without `content` are both one absent content; both raise in the source.
- SentenceFetcher.Fragments: a concordance line (`Line`, `Fragment`) cannot hold a JSON `null`. In the source a `null` `Left`, `Kwic`, `Right` or `Refs`, or a `null` fragment `str`, raises `TypeError` (sentence_construction/sentence_fetcher.py:69-70, 75). That is not a `RequestException`, so it would end `main`; the model has no such raise.
- SentenceFetcher.TokenOf: a `null` `toknum` gives the token `None` in the source, which differs from the default 0 (sentence_construction/sentence_fetcher.py:72). The model reads both as 0.
- Paraphrase.WithinBudget: the clock readings are integers, where `time.time()` is a float.
- Paraphrase.ParseItem: JSON values other than strings and `null` are not represented where the code reads a string. A `null` `custom_id` is treated as absent; the source raises on it too, at `.split`.
