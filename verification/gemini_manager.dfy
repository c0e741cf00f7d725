/**
 * The key manager of src/gemini_manager.py: a pool of Gemini API keys with a
 * current index, round-robin rotation, and an embedding call that rotates to
 * the next key when the remote service reports a rate limit.
 *
 * The remote `embed_content` call is an oracle: a function from the request
 * (attempt number, key in use, model, text, task type) to the outcome.
 */
module GeminiManager {
  import opened Wrappers
  import opened Text
  import opened EnvKeys
  import opened Rotation

  /** The variables the manager reads, in the order it reads them. */
  const ManagerKeyNames: seq<string> := [
    "GEMINI_API_KEY", "GEMINI_API_KEY_1", "GEMINI_API_KEY_2", "GEMINI_API_KEY_3",
    "GEMINI_API_KEY_4", "GEMINI_API_KEY_5", "GEMINI_API_KEY_6", "GEMINI_API_KEY_7"
  ]

  /** The embedding model every request names. */
  const EmbeddingModel: string := "models/text-embedding-004"

  /** The task type used when the caller gives none. */
  const DefaultTaskType: string := "retrieval_document"

  /** The pool the manager builds from the environment. */
  function ManagerKeys(env: Env): (keys: seq<string>)
    ensures |keys| <= 8
  {
    CollectKeys(env, ManagerKeyNames)
  }

  /** One request to the remote embedding service. */
  datatype EmbedRequest = EmbedRequest(attempt: nat, apiKey: string, model: string, content: string, taskType: string)

  /** The exceptions the manager raises. */
  datatype ManagerError =
    | NoKeysFound                     // construction with no key in the environment
    | AllKeysRateLimited(keys: nat)   // a rate-limit error on the last permitted attempt
    | Raised(msg: string)             // any other remote error, re-raised unchanged
    | RetriesExhausted                // the loop ran out of attempts without an answer

  /** The text of each exception. */
  function ErrorText(e: ManagerError): string
  {
    match e
    case NoKeysFound => "No Gemini API keys found in environment variables"
    case AllKeysRateLimited(n) => "All " + DecimalString(n) + " API keys hit rate limits"
    case Raised(msg) => msg
    case RetriesExhausted => "Failed to embed content after all retries"
  }

  /** An error counts as a rate limit when its lower-cased text mentions 429, quota or rate limit. */
  predicate IsRateLimitError(msg: string): (b: bool)
    ensures Contains(msg, "429") || Contains(msg, "quota") || Contains(msg, "rate limit") ==> b
    ensures Contains(msg, "QUOTA") || Contains(msg, "RATE LIMIT") ==> b
  {
    ContainsLower(msg, "429");
    ContainsLower(msg, "quota");
    ContainsLower(msg, "rate limit");
    ContainsLower(msg, "QUOTA");
    ContainsLower(msg, "RATE LIMIT");
    assert Lower("429") == "429";
    assert Lower("quota") == "quota" == Lower("QUOTA");
    assert Lower("rate limit") == "rate limit" == Lower("RATE LIMIT");
    var m := Lower(msg);
    Contains(m, "429") || Contains(m, "quota") || Contains(m, "rate limit")
  }

  /** Upper and lower case spell the same rate-limit signal. */
  lemma RateLimitIgnoresCase(msg: string)
    ensures IsRateLimitError(Lower(msg)) == IsRateLimitError(msg)
  {
    LowerIdempotent(msg);
  }

  /** The number of attempts: the pool size when `max_retries` is None, otherwise the given value. */
  function Budget(keys: seq<string>, maxRetries: Option<int>): (b: int)
    ensures maxRetries.None? ==> b == |keys|
  {
    maxRetries.GetOr(|keys|)
  }

  /** What a retrying embedding call produced, and how it left the pool. */
  datatype EmbedRun<T> = EmbedRun(result: Result<T, ManagerError>, finalIndex: nat, calls: nat, rotations: nat)

  /** The request sent on attempt `attempt` with the key at `index`. */
  function RequestAt(keys: seq<string>, index: nat, attempt: nat, text: string, taskType: string): EmbedRequest
    requires index < |keys|
  {
    EmbedRequest(attempt, keys[index], EmbeddingModel, text, taskType)
  }

  /** The retry loop from attempt `attempt` on, with the key at `index` current. */
  function EmbedFrom<T>(keys: seq<string>, index: nat, attempt: nat, budget: int,
                        text: string, taskType: string, respond: EmbedRequest -> Outcome<T>): (run: EmbedRun<T>)
    requires index < |keys|
    ensures run.finalIndex < |keys|
    ensures run.result == Err(RetriesExhausted) <==> attempt >= budget
    ensures attempt >= budget ==> run.calls == 0
    ensures attempt < budget ==> 1 <= run.calls <= budget - attempt && run.rotations == run.calls - 1
    decreases budget - attempt
  {
    if attempt >= budget then EmbedRun(Err(RetriesExhausted), index, 0, 0)
    else
      match respond(RequestAt(keys, index, attempt, text, taskType))
      case Success(v) => EmbedRun(Ok(v), index, 1, 0)
      case Error(msg) =>
        if !IsRateLimitError(msg) then EmbedRun(Err(Raised(msg)), index, 1, 0)
        else if attempt < budget - 1 then
          var rest := EmbedFrom(keys, Next(index, |keys|), attempt + 1, budget, text, taskType, respond);
          EmbedRun(rest.result, rest.finalIndex, rest.calls + 1, rest.rotations + 1)
        else EmbedRun(Err(AllKeysRateLimited(|keys|)), index, 1, 0)
  }

  /** `embed_content_with_retry` as a function of the pool, the current index and the oracle. */
  function Embed<T>(keys: seq<string>, index: nat, text: string, taskType: string,
                    maxRetries: Option<int>, respond: EmbedRequest -> Outcome<T>): (run: EmbedRun<T>)
    requires index < |keys|
    ensures run.finalIndex < |keys|
    ensures run.result == Err(RetriesExhausted) <==> Budget(keys, maxRetries) <= 0
    ensures run.calls <= (if maxRetries.None? then |keys| else if maxRetries.value > 0 then maxRetries.value else 0)
  {
    EmbedFrom(keys, index, 0, Budget(keys, maxRetries), text, taskType, respond)
  }

  /** The remote call reported a rate limit for this request. */
  predicate RateLimitedOn<T>(respond: EmbedRequest -> Outcome<T>, req: EmbedRequest)
  {
    respond(req).Error? && IsRateLimitError(respond(req).msg)
  }

  /**
   * The trace of a run that makes at least one call: every call before the
   * last hit a rate limit on the key `j` rotations further on, the last call
   * went to the final key, and its answer decides the result.
   */
  lemma {:induction false} EmbedTrace<T>(keys: seq<string>, index: nat, attempt: nat, budget: int,
                                         text: string, taskType: string, respond: EmbedRequest -> Outcome<T>)
    requires index < |keys| && attempt < budget
    ensures var run := EmbedFrom(keys, index, attempt, budget, text, taskType, respond);
      && 1 <= run.calls <= budget - attempt
      && run.rotations == run.calls - 1
      && run.finalIndex == Advance(index, |keys|, run.rotations)
      && (forall j :: 0 <= j < run.rotations ==>
            RateLimitedOn(respond, RequestAt(keys, Advance(index, |keys|, j), attempt + j, text, taskType)))
      && var last := respond(RequestAt(keys, run.finalIndex, attempt + run.rotations, text, taskType));
      && (run.result.Ok? <==> last.Success?)
      && (run.result.Ok? ==> run.result.value == last.value)
      && (run.result.Err? ==> last.Error?)
      && (run.result.Err? && !IsRateLimitError(last.msg) ==> run.result.error == Raised(last.msg))
      && (run.result.Err? && IsRateLimitError(last.msg) ==>
            run.result.error == AllKeysRateLimited(|keys|) && run.calls == budget - attempt)
    decreases budget - attempt
  {
    var n := |keys|;
    var req := RequestAt(keys, index, attempt, text, taskType);
    if respond(req).Error? && IsRateLimitError(respond(req).msg) && attempt < budget - 1 {
      var next := Next(index, n);
      EmbedTrace(keys, next, attempt + 1, budget, text, taskType, respond);
      var rest := EmbedFrom(keys, next, attempt + 1, budget, text, taskType, respond);
      forall k | 0 <= k <= rest.rotations
        ensures Advance(next, n, k) == Advance(index, n, k + 1)
      {
        AdvanceShift(index, n, k);
      }
      forall j | 0 <= j < rest.rotations + 1
        ensures RateLimitedOn(respond, RequestAt(keys, Advance(index, n, j), attempt + j, text, taskType))
      {
        if j > 0 {
          assert Advance(next, n, j - 1) == Advance(index, n, j);
        }
      }
    }
  }

  /** With a budget of zero or less no call is made and the "after all retries" error is raised. */
  lemma NoBudgetNoCall<T>(keys: seq<string>, index: nat, text: string, taskType: string,
                          maxRetries: int, respond: EmbedRequest -> Outcome<T>)
    requires index < |keys| && maxRetries <= 0
    ensures var run := Embed(keys, index, text, taskType, Some(maxRetries), respond);
      && run == EmbedRun(Err(RetriesExhausted), index, 0, 0)
      && ErrorText(run.result.error) == "Failed to embed content after all retries"
  {
  }

  /** With a positive budget the "after all retries" error is unreachable and rotations stay below the budget. */
  lemma PositiveBudgetBounds<T>(keys: seq<string>, index: nat, text: string, taskType: string,
                                maxRetries: Option<int>, respond: EmbedRequest -> Outcome<T>)
    requires index < |keys| && Budget(keys, maxRetries) > 0
    ensures var run := Embed(keys, index, text, taskType, maxRetries, respond);
      && run.result != Err(RetriesExhausted)
      && run.rotations <= Budget(keys, maxRetries) - 1
      && run.calls == run.rotations + 1
  {
    EmbedTrace(keys, index, 0, Budget(keys, maxRetries), text, taskType, respond);
  }

  /** A first error that is not a rate limit is re-raised at once, with no rotation. */
  lemma NonRateLimitNoRotation<T>(keys: seq<string>, index: nat, text: string, taskType: string,
                                  maxRetries: Option<int>, respond: EmbedRequest -> Outcome<T>)
    requires index < |keys| && Budget(keys, maxRetries) > 0
    requires respond(RequestAt(keys, index, 0, text, taskType)).Error?
    requires !IsRateLimitError(respond(RequestAt(keys, index, 0, text, taskType)).msg)
    ensures var run := Embed(keys, index, text, taskType, maxRetries, respond);
      && run.result == Err(Raised(respond(RequestAt(keys, index, 0, text, taskType)).msg))
      && run.rotations == 0 && run.calls == 1 && run.finalIndex == index
  {
  }

  /**
   * With the default budget and a rate limit on every key, each key is tried
   * exactly once, in rotation order, and the pool is left on the key just
   * before the starting one.
   */
  lemma {:induction false} DefaultBudgetTriesEachKeyOnce<T>(keys: seq<string>, index: nat, text: string, taskType: string,
                                                           respond: EmbedRequest -> Outcome<T>)
    requires index < |keys|
    requires forall j :: 0 <= j < |keys| ==>
      RateLimitedOn(respond, RequestAt(keys, Advance(index, |keys|, j), j, text, taskType))
    ensures var run := Embed(keys, index, text, taskType, None, respond);
      && run.result == Err(AllKeysRateLimited(|keys|))
      && ErrorText(run.result.error) == "All " + DecimalString(|keys|) + " API keys hit rate limits"
      && run.calls == |keys| && run.rotations == |keys| - 1
      && run.finalIndex == Advance(index, |keys|, |keys| - 1)
    ensures forall j1, j2 :: 0 <= j1 < j2 < |keys| ==> Advance(index, |keys|, j1) != Advance(index, |keys|, j2)
  {
    var n := |keys|;
    EmbedTrace(keys, index, 0, n, text, taskType, respond);
    var run := Embed(keys, index, text, taskType, None, respond);
    assert RateLimitedOn(respond, RequestAt(keys, Advance(index, n, run.rotations), run.rotations, text, taskType));
    forall j1, j2 | 0 <= j1 < j2 < n ensures Advance(index, n, j1) != Advance(index, n, j2) {
      VisitsEachOnce(index, n, j1, j2);
    }
  }

  /**
   * Two keys, `max_retries = 4`, three rate-limit errors and then an answer:
   * the manager rotates after each of the three errors and succeeds on the
   * fourth attempt, on the second key.
   */
  lemma ThreeRateLimitsThenSuccess(v: seq<real>, text: string)
    ensures var respond := (req: EmbedRequest) => if req.attempt < 3 then Error("429") else Success(v);
      Embed(["k1", "k2"], 0, text, DefaultTaskType, Some(4), respond) == EmbedRun(Ok(v), 1, 4, 3)
  {
    assert IsRateLimitError("429") by {
      assert Lower("429") == "429";
    }
  }

  /** The key manager. `configuredKey` is the key the Gemini client library was last configured with. */
  class GeminiKeyManager {
    var apiKeys: seq<string>
    var currentKeyIndex: nat
    var configuredKey: string

    /** The pool is non-empty with no empty key, the index is in range and the client library uses the current key. */
    ghost predicate Valid()
      reads this
    {
      && |apiKeys| > 0
      && (forall k :: k in apiKeys ==> k != "")
      && currentKeyIndex < |apiKeys|
      && configuredKey == apiKeys[currentKeyIndex]
    }

    /** `__init__` when at least one key is present. */
    constructor (env: Env)
      requires ManagerKeys(env) != []
      ensures Valid()
      ensures apiKeys == ManagerKeys(env) && currentKeyIndex == 0
    {
      apiKeys := ManagerKeys(env);
      currentKeyIndex := 0;
      configuredKey := ManagerKeys(env)[0];
    }

    /** `GeminiKeyManager()`: fails when no key is present, otherwise starts on the first key. */
    static method Create(env: Env) returns (r: Result<GeminiKeyManager, ManagerError>)
      ensures r.Err? <==> ManagerKeys(env) == []
      ensures r.Err? ==> r.error == NoKeysFound
      ensures r.Ok? ==> fresh(r.value) && r.value.Valid()
      ensures r.Ok? ==> r.value.apiKeys == ManagerKeys(env) && r.value.currentKeyIndex == 0
    {
      if ManagerKeys(env) == [] {
        r := Err(NoKeysFound);
      } else {
        var m := new GeminiKeyManager(env);
        r := Ok(m);
      }
    }

    /** `rotate_key`: moves to the next key, wrapping around, and configures the client with it. */
    method RotateKey()
      requires Valid()
      modifies this
      ensures Valid()
      ensures apiKeys == old(apiKeys)
      ensures currentKeyIndex == Next(old(currentKeyIndex), |apiKeys|)
    {
      currentKeyIndex := (currentKeyIndex + 1) % |apiKeys|;
      configuredKey := apiKeys[currentKeyIndex];
    }

    /** `get_current_key`: the key at the current index, which is also the configured one. */
    method GetCurrentKey() returns (k: string)
      requires Valid()
      ensures k == apiKeys[currentKeyIndex] && k == configuredKey
      ensures k in apiKeys && k != ""
    {
      k := apiKeys[currentKeyIndex];
    }

    /** `embed_content_with_retry`: the loop, proved to behave as `Embed`. */
    method EmbedContentWithRetry<T>(text: string, taskType: string, maxRetries: Option<int>,
                                    respond: EmbedRequest -> Outcome<T>) returns (r: Result<T, ManagerError>)
      requires Valid()
      modifies this
      ensures Valid()
      ensures apiKeys == old(apiKeys)
      ensures var run := Embed(old(apiKeys), old(currentKeyIndex), text, taskType, maxRetries, respond);
        r == run.result && currentKeyIndex == run.finalIndex
    {
      ghost var run := Embed(apiKeys, currentKeyIndex, text, taskType, maxRetries, respond);
      var budget := Budget(apiKeys, maxRetries);
      var attempt: nat := 0;
      while attempt < budget
        invariant Valid() && apiKeys == old(apiKeys)
        invariant attempt <= budget || attempt == 0
        invariant EmbedFrom(apiKeys, currentKeyIndex, attempt, budget, text, taskType, respond).result == run.result
        invariant EmbedFrom(apiKeys, currentKeyIndex, attempt, budget, text, taskType, respond).finalIndex == run.finalIndex
        decreases budget - attempt
      {
        var outcome := respond(EmbedRequest(attempt, apiKeys[currentKeyIndex], EmbeddingModel, text, taskType));
        match outcome {
          case Success(v) =>
            return Ok(v);
          case Error(msg) =>
            if IsRateLimitError(msg) {
              if attempt < budget - 1 {
                RotateKey();
                attempt := attempt + 1;
              } else {
                return Err(AllKeysRateLimited(|apiKeys|));
              }
            } else {
              return Err(Raised(msg));
            }
        }
      }
      r := Err(RetriesExhausted);
    }
  }
}
