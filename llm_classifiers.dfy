/** Local sensitivity classification: the model configuration is resolved
    once, each sentence's prompt is sent to the local model, and the
    non-empty answers are stored with the model value and its fingerprint.
    The model itself and the prompt template are parameters. */
module Classifiers {
  import opened Wrappers
  import opened PyStr
  import opened Chat
  import opened Store

  const MAX_TOKENS := 10
  const TEMPERATURE := 0

  /** The configured `MODEL`: a dictionary, a string, or any other value,
      given by its `str()`. */
  datatype ModelConfig =
    | DictModel(entries: map<string, string>)
    | StrModel(name: string)
    | OtherModel(repr: string)

  /** `(model_for_request, model_value)`; a dictionary may lack either key. */
  datatype ModelInfo = ModelInfo(forRequest: Option<string>, value: Option<string>)

  function Lookup(m: map<string, string>, key: string): (v: Option<string>)
    ensures v.Some? <==> key in m
    ensures v.Some? ==> v.value == m[key]
  {
    if key in m then Some(m[key]) else None
  }

  /** `get_model_info`: a dictionary gives its `name` and `model` entries;
      anything else gives the same text twice. */
  function GetModelInfo(config: ModelConfig): (info: ModelInfo)
    ensures config.DictModel? ==>
              && (info.forRequest.Some? <==> "name" in config.entries)
              && (info.value.Some? <==> "model" in config.entries)
              && (info.forRequest.Some? ==> info.forRequest.value == config.entries["name"])
              && (info.value.Some? ==> info.value.value == config.entries["model"])
    ensures !config.DictModel? ==> info.forRequest.Some? && info.forRequest == info.value
    ensures config.StrModel? ==> info.value == Some(config.name)
    ensures config.OtherModel? ==> info.value == Some(config.repr)
  {
    match config
    case DictModel(entries) => ModelInfo(Lookup(entries, "name"), Lookup(entries, "model"))
    case StrModel(name) => ModelInfo(Some(name), Some(name))
    case OtherModel(repr) => ModelInfo(Some(repr), Some(repr))
  }

  /** The arguments of `create_chat_completion`. */
  datatype ChatRequest = ChatRequest(messages: seq<Message>, maxTokens: int, temperature: int)

  /** One entry of the answer's `choices`; `content` is absent when the
      choice lacks its message or the message lacks its content. */
  datatype ChatChoice = ChatChoice(content: Option<string>)

  /** The local model's answer; `choices` may be absent. */
  datatype ChatResult = ChatResult(choices: Option<seq<ChatChoice>>)

  /** What `classify_with_mistral` does: return a label, return `None`, or
      raise on a first choice without content. */
  datatype Classification = Label(text: string) | NoLabel | Raised

  /** The request sent for one prompt: a single user turn, at most 10
      tokens, temperature 0. */
  function InferenceRequest(prompt: string): (r: ChatRequest)
    ensures |r.messages| == 1 && r.messages[0] == Message("user", prompt)
    ensures r.maxTokens == 10 && r.temperature == 0
  {
    ChatRequest(UserTurn(prompt), MAX_TOKENS, TEMPERATURE)
  }

  /** `classify_with_mistral`, with the local model `llm` as a parameter. */
  function ClassifyWithMistral(prompt: string, llm: ChatRequest -> ChatResult): (c: Classification)
    ensures var result := llm(InferenceRequest(prompt));
            && (c.NoLabel? <==> result.choices.None? || result.choices.value == [])
            && (c.Raised? <==> result.choices.Some? && result.choices.value != [] && result.choices.value[0].content.None?)
            && (c.Label? ==> c.text == Strip(result.choices.value[0].content.value))
  {
    var result := llm(InferenceRequest(prompt));
    if result.choices.Some? && |result.choices.value| > 0 then
      match result.choices.value[0].content
      case Some(content) => Label(Strip(content))
      case None => Raised
    else NoLabel
  }

  /** An item of `fetch_for_llm`: a key and a sentence. */
  datatype Item = Item(key: int, sentence: string)

  /** How each item is classified; `format` fills the prompt template. */
  function Classifier(llm: ChatRequest -> ChatResult, format: string -> string): Item -> Classification {
    (item: Item) => ClassifyWithMistral(format(item.sentence), llm)
  }

  /** The row stored for a labelled item. */
  function RowFor(item: Item, text: string, modelValue: Option<string>, fingerprint: string): LlmClassification {
    LlmClassification(item.key, text, "", modelValue, fingerprint)
  }

  /** The rows the loop inserts for `items`, none of which raises: one per
      labelled item, in order. */
  function Rows(items: seq<Item>, classify: Item -> Classification,
                modelValue: Option<string>, fingerprint: string): seq<LlmClassification>
  {
    if items == [] then []
    else
      var before := Rows(items[..|items| - 1], classify, modelValue, fingerprint);
      var item := items[|items| - 1];
      match classify(item)
      case Label(text) => before + [RowFor(item, text, modelValue, fingerprint)]
      case _ => before
  }

  /** Classifying one more item adds its row exactly when it is labelled. */
  lemma RowsStep(items: seq<Item>, k: nat, classify: Item -> Classification,
                 modelValue: Option<string>, fingerprint: string)
    requires k < |items|
    ensures Rows(items[..k + 1], classify, modelValue, fingerprint) ==
            Rows(items[..k], classify, modelValue, fingerprint) +
            (if classify(items[k]).Label? then [RowFor(items[k], classify(items[k]).text, modelValue, fingerprint)] else [])
  {
    assert items[..k + 1][..k] == items[..k];
  }

  /** The rows of two runs one after the other are the rows of both. */
  lemma {:induction false} RowsAppend(a: seq<Item>, b: seq<Item>, classify: Item -> Classification,
                                      modelValue: Option<string>, fingerprint: string)
    ensures Rows(a + b, classify, modelValue, fingerprint) ==
            Rows(a, classify, modelValue, fingerprint) + Rows(b, classify, modelValue, fingerprint)
  {
    if b == [] {
      assert a + b == a;
    } else {
      var init := b[..|b| - 1];
      RowsAppend(a, init, classify, modelValue, fingerprint);
      assert (a + b)[..|a + b| - 1] == a + init;
      assert (a + b)[|a + b| - 1] == b[|b| - 1];
    }
  }

  /** Every row carries the model value and fingerprint fixed before the
      loop, empty comments, and the key and label of a labelled item; there
      are never more rows than items. */
  lemma {:induction false} RowsShape(items: seq<Item>, classify: Item -> Classification,
                                     modelValue: Option<string>, fingerprint: string)
    ensures var rows := Rows(items, classify, modelValue, fingerprint);
            && |rows| <= |items|
            && forall j :: 0 <= j < |rows| ==>
                 && rows[j].model == modelValue && rows[j].fingerprint == fingerprint && rows[j].comments == ""
                 && exists i :: 0 <= i < |items| && items[i].key == rows[j].key
                                && classify(items[i]) == Label(rows[j].classification)
  {
    if items != [] {
      var init := items[..|items| - 1];
      RowsShape(init, classify, modelValue, fingerprint);
      var before := Rows(init, classify, modelValue, fingerprint);
      var rows := Rows(items, classify, modelValue, fingerprint);
      forall j | 0 <= j < |rows|
        ensures exists i :: 0 <= i < |items| && items[i].key == rows[j].key
                            && classify(items[i]) == Label(rows[j].classification)
      {
        if j < |before| {
          var i :| 0 <= i < |init| && init[i].key == before[j].key
                   && classify(init[i]) == Label(before[j].classification);
          assert items[i] == init[i];
        } else {
          assert items[|items| - 1].key == rows[j].key;
        }
      }
    }
  }

  /** When every item gets a label, even an empty one, there is one row per
      item, in item order. */
  lemma {:induction false} RowsAllLabelled(items: seq<Item>, classify: Item -> Classification,
                                           modelValue: Option<string>, fingerprint: string)
    requires forall i :: 0 <= i < |items| ==> classify(items[i]).Label?
    ensures var rows := Rows(items, classify, modelValue, fingerprint);
            && |rows| == |items|
            && forall i :: 0 <= i < |items| ==>
                 rows[i] == RowFor(items[i], classify(items[i]).text, modelValue, fingerprint)
  {
    if items != [] {
      var init := items[..|items| - 1];
      forall i | 0 <= i < |init| ensures classify(init[i]).Label? {
        assert init[i] == items[i];
      }
      RowsAllLabelled(init, classify, modelValue, fingerprint);
      var rows := Rows(items, classify, modelValue, fingerprint);
      forall i | 0 <= i < |init|
        ensures rows[i] == RowFor(items[i], classify(items[i]).text, modelValue, fingerprint)
      {
        assert init[i] == items[i];
      }
    }
  }

  /** Items without a label add no row. */
  lemma {:induction false} RowsNoneLabelled(items: seq<Item>, classify: Item -> Classification,
                                            modelValue: Option<string>, fingerprint: string)
    requires forall i :: 0 <= i < |items| ==> !classify(items[i]).Label?
    ensures Rows(items, classify, modelValue, fingerprint) == []
  {
    if items != [] {
      var init := items[..|items| - 1];
      forall i | 0 <= i < |init| ensures !classify(init[i]).Label? {
        assert init[i] == items[i];
      }
      RowsNoneLabelled(init, classify, modelValue, fingerprint);
    }
  }

  /** One pass of the loop of `create_and_classify_input`: the item's
      prompt is classified, and a label is stored with the model value and
      fingerprint; a raising item stores nothing. */
  method ClassifyAndStore(item: Item, store: DataStore, llm: ChatRequest -> ChatResult,
                          format: string -> string, modelValue: Option<string>, fingerprint: string)
    returns (classification: Classification)
    modifies store
    ensures classification == Classifier(llm, format)(item)
    ensures store.llmClassifications ==
            old(store.llmClassifications) +
            (if classification.Label? then [RowFor(item, classification.text, modelValue, fingerprint)] else [])
    ensures store.originalSentences == old(store.originalSentences)
  {
    var formattedPrompt := format(item.sentence);
    classification := ClassifyWithMistral(formattedPrompt, llm);
    if classification.Label? {
      store.InsertLlmClassification(item.key, classification.text, modelValue, fingerprint);
    }
  }

  /** `create_and_classify_input`: classifies the items in order and inserts
      a row for each label. A raising item ends the loop, the rows of the
      items before it staying inserted; `processed` counts the items that
      did not raise. */
  method CreateAndClassifyInput(items: seq<Item>, store: DataStore, llm: ChatRequest -> ChatResult,
                                fingerprint: string, config: ModelConfig, format: string -> string)
    returns (processed: nat)
    modifies store
    ensures processed <= |items|
    ensures forall i :: 0 <= i < processed ==> !Classifier(llm, format)(items[i]).Raised?
    ensures processed < |items| ==> Classifier(llm, format)(items[processed]).Raised?
    ensures store.llmClassifications ==
            old(store.llmClassifications) + Rows(items[..processed], Classifier(llm, format), GetModelInfo(config).value, fingerprint)
    ensures store.originalSentences == old(store.originalSentences)
  {
    var info := GetModelInfo(config);
    var modelValue := info.value;
    ghost var classify := Classifier(llm, format);
    processed := 0;
    while processed < |items|
      invariant processed <= |items|
      invariant forall i :: 0 <= i < processed ==> !classify(items[i]).Raised?
      invariant store.llmClassifications ==
                old(store.llmClassifications) + Rows(items[..processed], classify, modelValue, fingerprint)
      invariant store.originalSentences == old(store.originalSentences)
    {
      var classification := ClassifyAndStore(items[processed], store, llm, format, modelValue, fingerprint);
      if classification.Raised? {
        return;
      }
      RowsStep(items, processed, classify, modelValue, fingerprint);
      processed := processed + 1;
    }
  }
}
