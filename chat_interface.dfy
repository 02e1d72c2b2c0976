/** The submit logic of src/components/ChatInterface.tsx: a message box, an
    in-flight flag and the provider settings, with a guarded submit that always
    releases the flag. */
module Chat {
  import opened Types
  import opened JsString
  import Ai

  /** The early return of `handleSubmit`: `!message.trim() || isProcessing || !apiKey`. */
  predicate SubmitRejected(message: string, isProcessing: bool, apiKey: string) {
    Trim(message) == [] || isProcessing || apiKey == []
  }

  /** A submit goes ahead exactly when the message holds a non-whitespace
      character, nothing is in flight and a key is set. */
  lemma SubmitAcceptedIff(message: string, isProcessing: bool, apiKey: string)
    ensures !SubmitRejected(message, isProcessing, apiKey) <==>
              && (exists i :: 0 <= i < |message| && !IsWhitespace(message[i]))
              && !isProcessing
              && apiKey != []
  {
    TrimBlankIff(message);
  }

  /** What an accepted submit hands to `parseTransactionWithAI`. */
  datatype Request = Request(text: string, settings: Ai.AISettings)

  class ChatInterface {
    var message: string
    var isProcessing: bool
    var model: Ai.AIModel
    var apiKey: string

    /** The four `useState` initial values. */
    constructor ()
      ensures message == [] && !isProcessing && model == Ai.OpenAI && apiKey == []
    {
      message, isProcessing, model, apiKey := [], false, Ai.OpenAI, [];
    }

    /** `disabled={isProcessing || !apiKey}` on the send button: whenever it
        is disabled, the guard would turn a submit away as well (the guard also
        turns away a blank message, which the button does not reflect). */
    function SendDisabled(): (disabled: bool)
      reads this
      ensures disabled ==> SubmitRejected(message, isProcessing, apiKey)
    {
      isProcessing || apiKey == []
    }

    /** `disabled={isProcessing}` on the text input. */
    function InputDisabled(): bool
      reads this
    {
      isProcessing
    }

    /** The input's `onChange`: a disabled input delivers no change. */
    method EditMessage(text: string)
      modifies this
      ensures message == if old(InputDisabled()) then old(message) else text
      ensures isProcessing == old(isProcessing) && model == old(model) && apiKey == old(apiKey)
    {
      if !InputDisabled() {
        message := text;
      }
    }

    /** `onModelChange={setModel}`: the key is kept as it is. */
    method SetModel(m: Ai.AIModel)
      modifies this
      ensures model == m
      ensures apiKey == old(apiKey) && message == old(message) && isProcessing == old(isProcessing)
    {
      model := m;
    }

    /** `onApiKeyChange={setApiKey}`: the model is kept as it is. */
    method SetApiKey(k: string)
      modifies this
      ensures apiKey == k
      ensures model == old(model) && message == old(message) && isProcessing == old(isProcessing)
    {
      apiKey := k;
    }

    /** `handleSubmit` up to its `await`: the guard, then the flag is raised and
        the untrimmed message goes out with the current model and key. */
    method BeginSubmit() returns (request: Option<Request>)
      modifies this
      ensures SubmitRejected(old(message), old(isProcessing), old(apiKey)) ==> request == None && unchanged(this)
      ensures !SubmitRejected(old(message), old(isProcessing), old(apiKey)) ==>
                && request == Some(Request(old(message), Ai.AISettings(old(model), old(apiKey))))
                && isProcessing
                && message == old(message) && model == old(model) && apiKey == old(apiKey)
    {
      if SubmitRejected(message, isProcessing, apiKey) {
        return None;
      }
      isProcessing := true;
      request := Some(Request(message, Ai.AISettings(model, apiKey)));
    }

    /** `handleSubmit` after its `await`. `outcome` is what the extractor
        resolved to, `None` when it rejected. On success the result goes to
        `onTransactionAdd` and the message is cleared; on failure the message
        stays; either way the flag is released. */
    method FinishSubmit(outcome: Option<Ai.Extraction>) returns (added: Option<Ai.Extraction>)
      modifies this
      ensures added == outcome
      ensures !isProcessing
      ensures message == if outcome.Some? then [] else old(message)
      ensures model == old(model) && apiKey == old(apiKey)
    {
      added := None;
      match outcome {
        case Some(extraction) =>
          added := Some(extraction);
          message := [];
        case None =>
      }
      isProcessing := false;
    }

    /** The whole of `handleSubmit` with the extractor of src/lib/ai.ts, where
        `reply` is the provider's outcome. A rejected submit does nothing; an
        accepted one always ends with an extraction handed on once, an empty
        message and the flag released. */
    method HandleSubmit(reply: Option<Ai.ProviderObject>) returns (added: Option<Ai.Extraction>)
      modifies this
      ensures SubmitRejected(old(message), old(isProcessing), old(apiKey)) ==> added == None && unchanged(this)
      ensures !SubmitRejected(old(message), old(isProcessing), old(apiKey)) ==>
                && added == Some(Ai.ParseTransaction(old(message), Ai.AISettings(old(model), old(apiKey)), reply))
                && message == [] && !isProcessing
                && model == old(model) && apiKey == old(apiKey)
    {
      var request := BeginSubmit();
      match request {
        case None =>
          added := None;
        case Some(r) =>
          var extraction := Ai.ParseTransaction(r.text, r.settings, reply);
          added := FinishSubmit(Some(extraction));
      }
    }
  }
}
