/** The Gemini client: the de-duplicated order of models to try, the fall-back through
    that order within one call, and the retry loop with exponential back-off around it.
    The SDK's answers are passed in as a function of the attempt and the model's name. */
module GeminiClient {
  import opened Common

  const DefaultPrimaryModel := "gemini-2.5-flash-lite"
  const DefaultFallbackModels := ["gemini-1.5-flash", "gemini-1.5-pro"]
  const DefaultMaxRetries := 5
  const DefaultInitialBackoffMs := 1000
  const TimedOutMessage := "LLM request timed out"
  const AllModelsFailed := "All Gemini model attempts failed"

  datatype Config = Config(apiKey: string, primaryModel: Option<string>, fallbackModels: Option<seq<string>>)

  /** `[primary, ...fallbacks]` with the defaults filled in. */
  function RequestedModels(config: Config): seq<string> {
    [if config.primaryModel.Some? then config.primaryModel.value else DefaultPrimaryModel]
    + (if config.fallbackModels.Some? then config.fallbackModels.value else DefaultFallbackModels)
  }

  // ---------------------------------------------------------------------------
  // De-duplication preserving order (lines 20-26)
  // ---------------------------------------------------------------------------

  /** Each element at its first occurrence, in order. */
  function FirstOccurrences(s: seq<string>): seq<string> {
    if s == [] then []
    else
      var init := s[..|s| - 1];
      FirstOccurrences(init) + (if s[|s| - 1] in init then [] else [s[|s| - 1]])
  }

  /** `filter` with a `seen` set: keeps an element the first time it is met. */
  method DedupPreservingOrder(s: seq<string>) returns (r: seq<string>)
    ensures r == FirstOccurrences(s)
  {
    var seen: set<string> := {};
    r := [];
    for i := 0 to |s|
      invariant r == FirstOccurrences(s[..i])
      invariant seen == set x | x in s[..i]
    {
      var m := s[i];
      assert s[..i + 1][..i] == s[..i];
      if m in seen {
        continue;
      }
      seen := seen + {m};
      r := r + [m];
    }
    assert s[..|s|] == s;
  }

  /** The index of the first occurrence. */
  function FirstIndex(s: seq<string>, x: string): (k: nat)
    requires x in s
    ensures k < |s| && s[k] == x && x !in s[..k]
  {
    if s[0] == x then 0 else 1 + FirstIndex(s[1..], x)
  }

  lemma {:induction false} FirstIndexSnoc(s: seq<string>, y: string, x: string)
    requires x in s
    ensures FirstIndex(s + [y], x) == FirstIndex(s, x)
  {
    if s[0] != x {
      assert (s + [y])[1..] == s[1..] + [y];
      FirstIndexSnoc(s[1..], y, x);
    }
  }

  lemma {:induction false} FirstIndexNew(s: seq<string>, y: string)
    requires y !in s
    ensures FirstIndex(s + [y], y) == |s|
  {
    if s != [] {
      assert (s + [y])[1..] == s[1..] + [y];
      FirstIndexNew(s[1..], y);
    }
  }

  /** The order has no duplicates, the same elements as the input, the first element of the
      input first, and the elements in the order of their first occurrences. */
  lemma {:induction false} FirstOccurrencesSpec(s: seq<string>)
    ensures NoDuplicates(FirstOccurrences(s))
    ensures forall x :: x in FirstOccurrences(s) <==> x in s
    ensures s != [] ==> |FirstOccurrences(s)| > 0 && FirstOccurrences(s)[0] == s[0]
    ensures forall i, j :: 0 <= i < j < |FirstOccurrences(s)| ==>
      FirstIndex(s, FirstOccurrences(s)[i]) < FirstIndex(s, FirstOccurrences(s)[j])
  {
    if s != [] {
      var init := s[..|s| - 1];
      var y := s[|s| - 1];
      assert s == init + [y];
      FirstOccurrencesSpec(init);
      var fo := FirstOccurrences(init);
      var r := FirstOccurrences(s);
      forall x ensures x in s <==> x in init || x == y {
      }
      if init == [] {
        assert r == [y];
      }
      forall i, j | 0 <= i < j < |r| ensures FirstIndex(s, r[i]) < FirstIndex(s, r[j]) {
        assert r[i] == fo[i] && r[i] in init;
        FirstIndexSnoc(init, y, r[i]);
        if j < |fo| {
          FirstIndexSnoc(init, y, r[j]);
        } else {
          FirstIndexNew(init, y);
        }
      }
    }
  }

  /** With no configuration the client tries the three default models in order. */
  lemma DefaultModelOrder(apiKey: string)
    ensures FirstOccurrences(RequestedModels(Config(apiKey, None, None)))
      == ["gemini-2.5-flash-lite", "gemini-1.5-flash", "gemini-1.5-pro"]
  {
    var s := RequestedModels(Config(apiKey, None, None));
    assert s == ["gemini-2.5-flash-lite", "gemini-1.5-flash", "gemini-1.5-pro"];
    assert FirstOccurrences(s[..1]) == [s[0]] by {
      assert s[..1][..0] == [];
    }
    assert FirstOccurrences(s[..2]) == [s[0], s[1]] by {
      assert s[..2][..1] == s[..1];
      assert s[1] != s[0];
    }
    assert s[..3] == s;
    assert s[2] !in s[..2];
  }

  // ---------------------------------------------------------------------------
  // One call: falling back through the models (lines 73-99)
  // ---------------------------------------------------------------------------

  /** What the SDK gave for one model: a thrown value (`Some(message)` for an `Error`,
      `None` for anything else), or `text()`'s result (`None` when it is not a string). */
  datatype ModelResponse = Threw(error: Option<string>) | Returned(text: Option<string>)

  /** A string with a character that is not white space. */
  predicate Answers(resp: ModelResponse) {
    resp.Returned? && resp.text.Some? && !IsBlank(resp.text.value)
  }

  /** The test of line 86: a string whose trimmed text is not empty. */
  lemma AnswersIffTrimmedNonEmpty(resp: ModelResponse)
    ensures Answers(resp) <==> resp.Returned? && resp.text.Some? && |Trim(resp.text.value)| > 0
  {
    if resp.Returned? && resp.text.Some? {
      TrimEmptyIffBlank(resp.text.value);
    }
  }

  /** `lastErr` after a model that did not answer: its error, or an empty-response error. */
  function ModelFailure(model: string, resp: ModelResponse): Option<string> {
    match resp
    case Threw(e) => e
    case Returned(_) => Some("Empty response from " + model)
  }

  /** The value thrown at the end: `lastErr` if it is an `Error`, else the generic one. */
  function FinalError(lastErr: Option<string>): string {
    if lastErr.Some? then lastErr.value else AllModelsFailed
  }

  /** The outcome of trying the models from the first on, with `lastErr` so far. */
  function CallFrom(models: seq<string>, respond: string -> ModelResponse, lastErr: Option<string>): Result<string> {
    if models == [] then Err(FinalError(lastErr))
    else
      var resp := respond(models[0]);
      if Answers(resp) then Ok(resp.text.value)
      else CallFrom(models[1..], respond, ModelFailure(models[0], resp))
  }

  function CallOutcome(models: seq<string>, respond: string -> ModelResponse): Result<string> {
    CallFrom(models, respond, None)
  }

  /** The call answers with the untrimmed text of the first model that answers. */
  lemma {:induction false} CallFromOk(models: seq<string>, respond: string -> ModelResponse, lastErr: Option<string>)
    requires CallFrom(models, respond, lastErr).Ok?
    ensures exists i :: (&& 0 <= i < |models| && FirstAnswer(models, respond, i)
                         && CallFrom(models, respond, lastErr).value == respond(models[i]).text.value)
  {
    var resp := respond(models[0]);
    if Answers(resp) {
      assert FirstAnswer(models, respond, 0);
    } else {
      var rest := models[1..];
      CallFromOk(rest, respond, ModelFailure(models[0], resp));
      var i :| 0 <= i < |rest| && FirstAnswer(rest, respond, i)
        && CallFrom(rest, respond, ModelFailure(models[0], resp)).value == respond(rest[i]).text.value;
      assert models[i + 1] == rest[i];
      forall j | 0 <= j < i + 1 ensures !Answers(respond(models[j])) {
        if j > 0 { assert models[j] == rest[j - 1]; }
      }
      assert FirstAnswer(models, respond, i + 1);
    }
  }

  /** Model `i` answers and none before it does. */
  predicate FirstAnswer(models: seq<string>, respond: string -> ModelResponse, i: nat)
    requires i < |models|
  {
    Answers(respond(models[i])) && forall j :: 0 <= j < i ==> !Answers(respond(models[j]))
  }

  /** If some model answers, the call answers. */
  lemma {:induction false} CallFromAnswers(models: seq<string>, respond: string -> ModelResponse, lastErr: Option<string>, i: nat)
    requires i < |models| && Answers(respond(models[i]))
    ensures CallFrom(models, respond, lastErr).Ok?
  {
    var resp := respond(models[0]);
    if !Answers(resp) {
      assert models[1..][i - 1] == models[i];
      CallFromAnswers(models[1..], respond, ModelFailure(models[0], resp), i - 1);
    }
  }

  /** When no model answers, the call fails with the last model's error, or the generic
      one when that is not an `Error`; with no model it fails with `lastErr` so far. */
  lemma {:induction false} CallFromErr(models: seq<string>, respond: string -> ModelResponse, lastErr: Option<string>)
    requires CallFrom(models, respond, lastErr).Err?
    ensures |models| > 0 ==>
      var last := models[|models| - 1];
      CallFrom(models, respond, lastErr).error == FinalError(ModelFailure(last, respond(last)))
    ensures models == [] ==> CallFrom(models, respond, lastErr).error == FinalError(lastErr)
  {
    if models != [] {
      var resp := respond(models[0]);
      var rest := models[1..];
      CallFromErr(rest, respond, ModelFailure(models[0], resp));
      if rest != [] {
        assert rest[|rest| - 1] == models[|models| - 1];
      }
    }
  }

  // ---------------------------------------------------------------------------
  // Retries with back-off (lines 29-71)
  // ---------------------------------------------------------------------------

  function Pow2(n: nat): (p: nat)
    ensures p > 0
  {
    if n == 0 then 1 else 2 * Pow2(n - 1)
  }

  /** What `executeLLM` ends with: the text, the message of the error it throws, or the
      `null` it throws when it makes no attempt at all. */
  datatype ExecOutcome = Text(text: string) | Failure(message: string) | NullThrown

  /** One attempt: the race against the timeout (`timedOut`), or the whole call. */
  function AttemptOutcome(models: seq<string>, respond: (nat, string) -> ModelResponse, timedOut: nat -> bool, a: nat): Result<string> {
    if timedOut(a) then Err(TimedOutMessage) else CallOutcome(models, RespondAt(respond, a))
  }

  /** The SDK's answers during attempt `a`. */
  function RespondAt(respond: (nat, string) -> ModelResponse, a: nat): string -> ModelResponse {
    m => respond(a, m)
  }

  function FailedAfter(attempts: nat, message: string): string {
    "Gemini API failed after " + NatToString(attempts) + " attempts: " + message
  }

  class GeminiLLM {
    const apiKey: string
    const modelOrder: seq<string>

    /** The constructor: the key, and the requested models without repeats. */
    constructor (config: Config)
      ensures apiKey == config.apiKey
      ensures modelOrder == FirstOccurrences(RequestedModels(config))
    {
      apiKey := config.apiKey;
      var order := DedupPreservingOrder(RequestedModels(config));
      modelOrder := order;
    }

    /** `_callGemini`: the models in order until one answers. */
    method CallGemini(respond: string -> ModelResponse) returns (r: Result<string>)
      ensures r == CallOutcome(modelOrder, respond)
    {
      var lastErr: Option<string> := None;
      for i := 0 to |modelOrder|
        invariant CallOutcome(modelOrder, respond) == CallFrom(modelOrder[i..], respond, lastErr)
      {
        var modelName := modelOrder[i];
        assert modelOrder[i..][1..] == modelOrder[i + 1..];
        var response := respond(modelName);
        AnswersIffTrimmedNonEmpty(response);
        if response.Returned? && response.text.Some? && |Trim(response.text.value)| > 0 {
          return Ok(response.text.value);
        }
        lastErr := ModelFailure(modelName, response);
      }
      r := Err(FinalError(lastErr));
    }

    /** `executeLLM`: up to `maxRetries + 1` attempts; after failed attempt n (counting
        from 1) and before the next it waits `initialBackoffMs * 2^(n-1)`. It returns the
        first attempt's text that succeeds, and otherwise throws the last attempt's error
        with the number of attempts. The waits are returned rather than slept. */
    method ExecuteLLM(maxRetriesOpt: Option<int>, initialBackoffOpt: Option<int>,
                      respond: (nat, string) -> ModelResponse, timedOut: nat -> bool)
      returns (r: ExecOutcome, attempts: nat, waits: seq<int>)
      ensures var maxRetries := if maxRetriesOpt.Some? then maxRetriesOpt.value else DefaultMaxRetries;
        && (maxRetries < 0 ==> r == NullThrown && attempts == 0)
        && (maxRetries >= 0 ==> !r.NullThrown? && 1 <= attempts <= maxRetries + 1 && |waits| == attempts - 1)
        && (forall a :: 0 <= a < attempts - 1 ==> AttemptOutcome(modelOrder, respond, timedOut, a).Err?)
        && (r.Text? ==> AttemptOutcome(modelOrder, respond, timedOut, attempts - 1) == Ok(r.text))
        && (r.Failure? ==>
              && attempts == maxRetries + 1
              && AttemptOutcome(modelOrder, respond, timedOut, attempts - 1).Err?
              && r.message == FailedAfter(attempts, AttemptOutcome(modelOrder, respond, timedOut, attempts - 1).error))
      ensures var backoff := if initialBackoffOpt.Some? then initialBackoffOpt.value else DefaultInitialBackoffMs;
        forall n :: 0 <= n < |waits| ==> waits[n] == backoff * Pow2(n)
    {
      var maxRetries := if maxRetriesOpt.Some? then maxRetriesOpt.value else DefaultMaxRetries;
      var initialBackoffMs := if initialBackoffOpt.Some? then initialBackoffOpt.value else DefaultInitialBackoffMs;
      var attempt: nat := 0;
      r, attempts, waits := NullThrown, 0, [];
      while attempt <= maxRetries
        invariant attempts == attempt && |waits| == attempt
        invariant maxRetries >= 0 ==> attempt <= maxRetries
        invariant maxRetries < 0 ==> attempt == 0
        invariant forall a :: 0 <= a < attempt ==> AttemptOutcome(modelOrder, respond, timedOut, a).Err?
        invariant forall n :: 0 <= n < |waits| ==> waits[n] == initialBackoffMs * Pow2(n)
        invariant r == NullThrown
        decreases maxRetries - attempt
      {
        var result: Result<string>;
        if timedOut(attempt) {
          result := Err(TimedOutMessage);
        } else {
          result := CallGemini(RespondAt(respond, attempt));
        }
        if result.Ok? {
          r, attempts := Text(result.value), attempt + 1;
          break;
        }
        attempt := attempt + 1;
        if attempt > maxRetries {
          r, attempts := Failure(FailedAfter(attempt, result.error)), attempt;
          break;
        }
        waits := waits + [initialBackoffMs * Pow2(attempt - 1)];
        attempts := attempt;
      }
    }
  }
}
