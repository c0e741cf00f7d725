/**
 * The module-level key pool of src/agents.py: the globals `GEMINI_KEYS` and
 * `CURRENT_KEY_INDEX`, the key the Gemini client library is configured
 * with, and `safe_gemini_call`, which rotates to the next key on every
 * retryable error.
 *
 * The remote `generate_content` call is an oracle from the request (attempt
 * number, configured key, prompt) to its outcome.
 */
module AgentsKeys {
  import opened Wrappers
  import opened Text
  import opened EnvKeys
  import opened Rotation
  import GeminiManager

  /** The number of numbered key variables `load_gemini_keys` looks at. */
  const KeySlots: nat := 20

  /** The variable name for slot `i`: `GEMINI_API_KEY_<i>`. */
  function AgentKeyName(i: nat): (name: string)
    ensures "GEMINI_API_KEY_" <= name
  {
    "GEMINI_API_KEY_" + DecimalString(i)
  }

  /** The variables `load_gemini_keys` reads, slots 1 to 20 in order. */
  function AgentKeyNames(): (names: seq<string>)
    ensures |names| == KeySlots
    ensures forall j :: 0 <= j < KeySlots ==> names[j] == AgentKeyName(j + 1)
  {
    seq(KeySlots, j requires 0 <= j < KeySlots => AgentKeyName(j + 1))
  }

  /** The twenty slots name twenty different variables. */
  lemma AgentKeyNamesDistinct(j1: nat, j2: nat)
    requires j1 < j2 < KeySlots
    ensures AgentKeyNames()[j1] != AgentKeyNames()[j2]
  {
    var prefix := "GEMINI_API_KEY_";
    if AgentKeyName(j1 + 1) == AgentKeyName(j2 + 1) {
      assert DecimalString(j1 + 1) == AgentKeyName(j1 + 1)[|prefix|..];
      assert DecimalString(j2 + 1) == AgentKeyName(j2 + 1)[|prefix|..];
      DecimalInjective(j1 + 1, j2 + 1);
    }
  }

  /** The pool `load_gemini_keys` builds from the environment. */
  function AgentKeys(env: Env): (keys: seq<string>)
    ensures |keys| <= KeySlots
  {
    CollectKeys(env, AgentKeyNames())
  }

  /** The error `load_gemini_keys` raises when no slot is set. */
  const NoKeysMessage: string := "No Gemini API keys were found in environment variables."

  /** The text of the ZeroDivisionError Python raises for `x % 0`. */
  const ModuloByZero: string := "integer modulo by zero"

  /** The fragments `safe_gemini_call` treats as a quota problem, matched case-sensitively. */
  const QuotaCodes: set<string> := {"quota", "429", "403", "exceeded", "API key"}

  /** The quota group of retryable errors: some quota fragment occurs in the text. */
  predicate IsQuotaError(msg: string): (b: bool)
    ensures b <==> exists code :: code in QuotaCodes && Contains(msg, code)
  {
    Contains(msg, "quota") || Contains(msg, "429") || Contains(msg, "403")
    || Contains(msg, "exceeded") || Contains(msg, "API key")
  }

  /** The fragments `safe_gemini_call` treats as a server error. */
  const ServerCodes: set<string> := {"500", "503"}

  /** The server-error group of retryable errors: a 500 or a 503 occurs in the text. */
  predicate IsServerError(msg: string): (b: bool)
    ensures b <==> exists code :: code in ServerCodes && Contains(msg, code)
  {
    Contains(msg, "500") || Contains(msg, "503")
  }

  /** An error after which `safe_gemini_call` rotates and tries again: one of the seven fragments occurs in it. */
  predicate IsRetryable(msg: string): (b: bool)
    ensures b <==> exists code :: code in QuotaCodes + ServerCodes && Contains(msg, code)
  {
    assert forall code :: code in QuotaCodes + ServerCodes <==> code in QuotaCodes || code in ServerCodes;
    IsQuotaError(msg) || IsServerError(msg)
  }

  /** One request to the remote generation service. */
  datatype GenerateRequest<P> = GenerateRequest(attempt: nat, apiKey: Option<string>, prompt: P)

  /** The exceptions `safe_gemini_call` lets out. */
  datatype CallError = AllKeysFailed | Raised(msg: string)

  /** `str(e)` for each of them. */
  function ErrorText(e: CallError): string
  {
    match e
    case AllKeysFailed => "All Gemini API keys failed."
    case Raised(msg) => msg
  }

  /** What a call produced, and how it left the pool and the client configuration. */
  datatype CallRun = CallRun(result: Result<string, CallError>, finalIndex: nat, configuredKey: Option<string>,
                             calls: nat, rotations: nat)

  /** The loop of `safe_gemini_call` from attempt `attempt` on. */
  function SafeCallFrom<P>(keys: seq<string>, index: nat, configured: Option<string>, attempt: nat,
                           prompt: P, respond: GenerateRequest<P> -> Outcome<string>): (run: CallRun)
    ensures attempt >= |keys| ==> run.calls == 0 && run.result == Err(AllKeysFailed)
    ensures attempt < |keys| ==> 1 <= run.calls <= |keys| - attempt
    ensures run.rotations <= run.calls
    ensures run.rotations > 0 ==> run.finalIndex < |keys| && run.configuredKey == Some(keys[run.finalIndex])
    decreases |keys| - attempt
  {
    if attempt >= |keys| then CallRun(Err(AllKeysFailed), index, configured, 0, 0)
    else
      match respond(GenerateRequest(attempt, configured, prompt))
      case Success(text) => CallRun(Ok(text), index, configured, 1, 0)
      case Error(msg) =>
        if IsRetryable(msg) then
          var j := Next(index, |keys|);
          var rest := SafeCallFrom(keys, j, Some(keys[j]), attempt + 1, prompt, respond);
          CallRun(rest.result, rest.finalIndex, rest.configuredKey, rest.calls + 1, rest.rotations + 1)
        else CallRun(Err(Raised(msg)), index, configured, 1, 0)
  }

  /** `safe_gemini_call` as a function of the pool state and the oracle. */
  function SafeCall<P>(keys: seq<string>, index: nat, configured: Option<string>,
                       prompt: P, respond: GenerateRequest<P> -> Outcome<string>): (run: CallRun)
    ensures run.calls <= |keys|
    ensures run.rotations <= run.calls
    ensures run.rotations > 0 ==> run.finalIndex < |keys| && run.configuredKey == Some(keys[run.finalIndex])
  {
    SafeCallFrom(keys, index, configured, 0, prompt, respond)
  }

  /** A retryable failure moves the call on to the next attempt with the next key of the pool. */
  lemma SafeCallRotates<P>(keys: seq<string>, index: nat, configured: Option<string>, attempt: nat,
                           prompt: P, respond: GenerateRequest<P> -> Outcome<string>, msg: string)
    requires attempt < |keys|
    requires respond(GenerateRequest(attempt, configured, prompt)) == Error(msg)
    requires IsQuotaError(msg) || IsServerError(msg)
    ensures var run := SafeCallFrom(keys, index, configured, attempt, prompt, respond);
      var rest := SafeCallFrom(keys, Next(index, |keys|), Some(keys[Next(index, |keys|)]), attempt + 1, prompt, respond);
      run.result == rest.result && run.finalIndex == rest.finalIndex && run.configuredKey == rest.configuredKey
  {
  }

  /** The key in use `j` steps into a call: the configured one first, then the key reached by `j` rotations. */
  function KeyInUse(keys: seq<string>, index: nat, configured: Option<string>, j: nat): Option<string>
    requires |keys| > 0
  {
    if j == 0 then configured else Some(keys[Advance(index, |keys|, j)])
  }

  /** The remote call failed retryably on this request. */
  predicate RetryableOn<P>(respond: GenerateRequest<P> -> Outcome<string>, req: GenerateRequest<P>)
  {
    respond(req).Error? && IsRetryable(respond(req).msg)
  }

  /** After a call from attempt `attempt`, the pool and the client are on the key its rotations reached. */
  lemma {:induction false} SafeCallLands<P>(keys: seq<string>, index: nat, configured: Option<string>, attempt: nat,
                                            prompt: P, respond: GenerateRequest<P> -> Outcome<string>)
    requires attempt < |keys|
    ensures var run := SafeCallFrom(keys, index, configured, attempt, prompt, respond);
      && run.finalIndex == Advance(index, |keys|, run.rotations)
      && run.configuredKey == KeyInUse(keys, index, configured, run.rotations)
    decreases |keys| - attempt
  {
    var n := |keys|;
    var out := respond(GenerateRequest(attempt, configured, prompt));
    if out.Error? && IsRetryable(out.msg) {
      var next := Next(index, n);
      var rest := SafeCallFrom(keys, next, Some(keys[next]), attempt + 1, prompt, respond);
      if attempt + 1 < n {
        SafeCallLands(keys, next, Some(keys[next]), attempt + 1, prompt, respond);
        AdvanceShift(index, n, rest.rotations);
      }
    }
  }

  /**
   * How a call from attempt `attempt` ends: a success or a non-retryable
   * error ends it after one more request than it rotated; running out of
   * keys ends it with one rotation per request.
   */
  lemma {:induction false} SafeCallEnd<P>(keys: seq<string>, index: nat, configured: Option<string>, attempt: nat,
                                          prompt: P, respond: GenerateRequest<P> -> Outcome<string>)
    requires attempt < |keys|
    ensures var run := SafeCallFrom(keys, index, configured, attempt, prompt, respond);
      && (run.result == Err(AllKeysFailed) <==> run.rotations == run.calls)
      && (run.result == Err(AllKeysFailed) ==> run.calls == |keys| - attempt)
      && (run.result != Err(AllKeysFailed) ==>
            && run.rotations == run.calls - 1
            && var last := respond(GenerateRequest(attempt + run.rotations, run.configuredKey, prompt));
            && (last.Success? ==> run.result == Ok(last.value))
            && (last.Error? ==> !IsRetryable(last.msg) && run.result == Err(Raised(last.msg))))
    decreases |keys| - attempt
  {
    var n := |keys|;
    var out := respond(GenerateRequest(attempt, configured, prompt));
    if out.Error? && IsRetryable(out.msg) && attempt + 1 < n {
      var next := Next(index, n);
      SafeCallEnd(keys, next, Some(keys[next]), attempt + 1, prompt, respond);
    }
  }

  /** Every rotation of a call from attempt `attempt` follows a retryable failure on the key then in use. */
  lemma {:induction false} SafeCallRetries<P>(keys: seq<string>, index: nat, configured: Option<string>, attempt: nat,
                                              prompt: P, respond: GenerateRequest<P> -> Outcome<string>)
    requires attempt < |keys|
    ensures var run := SafeCallFrom(keys, index, configured, attempt, prompt, respond);
      forall j :: 0 <= j < run.rotations ==>
        RetryableOn(respond, GenerateRequest(attempt + j, KeyInUse(keys, index, configured, j), prompt))
    decreases |keys| - attempt
  {
    var n := |keys|;
    var out := respond(GenerateRequest(attempt, configured, prompt));
    if out.Error? && IsRetryable(out.msg) {
      var next := Next(index, n);
      var rest := SafeCallFrom(keys, next, Some(keys[next]), attempt + 1, prompt, respond);
      if attempt + 1 < n {
        SafeCallRetries(keys, next, Some(keys[next]), attempt + 1, prompt, respond);
        forall j | 0 < j < rest.rotations + 1
          ensures RetryableOn(respond, GenerateRequest(attempt + j, KeyInUse(keys, index, configured, j), prompt))
        {
          AdvanceShift(index, n, j - 1);
          assert KeyInUse(keys, next, Some(keys[next]), j - 1) == KeyInUse(keys, index, configured, j);
        }
      }
    }
  }

  /**
   * The trace of a call from attempt `attempt`: every rotation follows a
   * retryable failure on the key then in use; a success or a non-retryable
   * error ends the call after one more request; running out of keys ends it
   * with one rotation per request.
   */
  lemma SafeCallTrace<P>(keys: seq<string>, index: nat, configured: Option<string>, attempt: nat,
                         prompt: P, respond: GenerateRequest<P> -> Outcome<string>)
    requires attempt < |keys|
    ensures var run := SafeCallFrom(keys, index, configured, attempt, prompt, respond);
      && 1 <= run.calls <= |keys| - attempt
      && run.finalIndex == Advance(index, |keys|, run.rotations)
      && run.configuredKey == KeyInUse(keys, index, configured, run.rotations)
      && (forall j :: 0 <= j < run.calls && (j < run.rotations) ==>
            RetryableOn(respond, GenerateRequest(attempt + j, KeyInUse(keys, index, configured, j), prompt)))
      && (run.result == Err(AllKeysFailed) <==> run.rotations == run.calls)
      && (run.result == Err(AllKeysFailed) ==> run.calls == |keys| - attempt)
      && (run.result != Err(AllKeysFailed) ==>
            && run.rotations == run.calls - 1
            && var last := respond(GenerateRequest(attempt + run.rotations, run.configuredKey, prompt));
            && (last.Success? ==> run.result == Ok(last.value))
            && (last.Error? ==> !IsRetryable(last.msg) && run.result == Err(Raised(last.msg))))
  {
    SafeCallLands(keys, index, configured, attempt, prompt, respond);
    SafeCallEnd(keys, index, configured, attempt, prompt, respond);
    SafeCallRetries(keys, index, configured, attempt, prompt, respond);
  }

  /** Once the client holds one of the pool's keys, every request of a call goes out with a key of the pool. */
  lemma PoolKeysInUse(keys: seq<string>, index: nat, configured: Option<string>, j: nat)
    requires |keys| > 0 && configured.Some? && configured.value in keys
    ensures KeyInUse(keys, index, configured, j).Some? && KeyInUse(keys, index, configured, j).value in keys
  {
  }

  /** An empty pool makes no request and raises the "all keys failed" error. */
  lemma EmptyPoolNoCall<P>(index: nat, configured: Option<string>,
                           prompt: P, respond: GenerateRequest<P> -> Outcome<string>)
    ensures SafeCall([], index, configured, prompt, respond) == CallRun(Err(AllKeysFailed), index, configured, 0, 0)
  {
  }

  /**
   * When every request fails retryably, the call rotates once per key, so the
   * index comes back to where it started (reduced modulo the pool size) and
   * the client is configured with that key.
   */
  lemma AllRetryableFullCycle<P>(keys: seq<string>, index: nat, configured: Option<string>,
                                 prompt: P, respond: GenerateRequest<P> -> Outcome<string>)
    requires |keys| > 0
    requires forall j :: 0 <= j < |keys| ==>
      RetryableOn(respond, GenerateRequest(j, KeyInUse(keys, index, configured, j), prompt))
    ensures var run := SafeCall(keys, index, configured, prompt, respond);
      && run.result == Err(AllKeysFailed)
      && run.calls == |keys| && run.rotations == |keys|
      && run.finalIndex == index % |keys|
      && run.configuredKey == Some(keys[index % |keys|])
      && (index < |keys| ==> run.finalIndex == index)
  {
    var n := |keys|;
    SafeCallTrace(keys, index, configured, 0, prompt, respond);
    var run := SafeCall(keys, index, configured, prompt, respond);
    FullCycleFromAny(index, n);
    if index < n {
      FullCycle(index, n);
    }
  }

  /** A first error outside both retryable groups propagates unchanged, with no rotation. */
  lemma OtherErrorPropagates<P>(keys: seq<string>, index: nat, configured: Option<string>,
                                prompt: P, respond: GenerateRequest<P> -> Outcome<string>)
    requires |keys| > 0
    requires respond(GenerateRequest(0, configured, prompt)).Error?
    requires !IsRetryable(respond(GenerateRequest(0, configured, prompt)).msg)
    ensures SafeCall(keys, index, configured, prompt, respond)
      == CallRun(Err(Raised(respond(GenerateRequest(0, configured, prompt)).msg)), index, configured, 1, 0)
  {
  }

  /** A bare 403 is retried here, but the key manager re-raises it. */
  lemma ForbiddenRetriedOnlyHere()
    ensures IsRetryable("403") && !GeminiManager.IsRateLimitError("403")
  {
    assert "403" <= "403";
    assert Lower("403") == "403";
    NotContainsLonger("403", "quota");
    NotContainsLonger("403", "rate limit");
    assert !("429" <= "403") by { assert "429"[1] != "403"[1]; }
    NotContainsLonger("03", "429");
  }

  /** "QUOTA" is retried by the key manager, which lower-cases, but propagates here, where matching is case-sensitive. */
  lemma UpperCaseQuotaPropagatesHere()
    ensures GeminiManager.IsRateLimitError("QUOTA") && !IsRetryable("QUOTA")
  {
    var s := "QUOTA";
    assert GeminiManager.IsRateLimitError(s) by {
      assert Lower(s) == "quota";
      assert "quota" <= "quota";
    }
    assert s == ['Q', 'U', 'O', 'T', 'A'];
    NotContainsAbsentChar(s, "quota", 0);
    NotContainsAbsentChar(s, "429", 0);
    NotContainsLonger(s, "exceeded");
    NotContainsLonger(s, "API key");
    NotContainsAbsentChar(s, "403", 0);
    NotContainsAbsentChar(s, "500", 0);
    NotContainsAbsentChar(s, "503", 0);
  }

  /** The module globals of src/agents.py together with the client library's configured key. */
  class GeminiPool {
    var geminiKeys: seq<string>
    var currentKeyIndex: nat
    var configuredKey: Option<string>

    /** No key is empty, and once keys are loaded the client is configured with one of them. */
    ghost predicate Valid()
      reads this
    {
      && (forall k :: k in geminiKeys ==> k != "")
      && (|geminiKeys| > 0 ==> configuredKey.Some? && configuredKey.value in geminiKeys)
    }

    /** The state at import time: no keys, index 0, client not configured. */
    constructor ()
      ensures Valid()
      ensures geminiKeys == [] && currentKeyIndex == 0 && configuredKey == None
    {
      geminiKeys := [];
      currentKeyIndex := 0;
      configuredKey := None;
    }

    /**
     * `load_gemini_keys`: rebuilds the pool from slots 1 to 20, fails when it
     * stays empty, and configures the client with the first key. The index
     * is left as it was.
     */
    method LoadGeminiKeys(env: Env) returns (r: Result<(), string>)
      modifies this
      ensures Valid()
      ensures geminiKeys == AgentKeys(env)
      ensures currentKeyIndex == old(currentKeyIndex)
      ensures r.Err? <==> geminiKeys == []
      ensures r.Err? ==> r.error == NoKeysMessage && configuredKey == old(configuredKey)
      ensures r.Ok? ==> configuredKey == Some(geminiKeys[0])
    {
      geminiKeys := [];
      var i := 1;
      while i <= KeySlots
        invariant 1 <= i <= KeySlots + 1
        invariant geminiKeys == CollectKeys(env, AgentKeyNames()[..i - 1])
        invariant currentKeyIndex == old(currentKeyIndex) && configuredKey == old(configuredKey)
      {
        var name := "GEMINI_API_KEY_" + DecimalString(i);
        assert AgentKeyNames()[..i][..i - 1] == AgentKeyNames()[..i - 1];
        assert AgentKeyNames()[..i][i - 1] == name;
        if name in env && env[name] != "" {
          geminiKeys := geminiKeys + [env[name]];
        }
        i := i + 1;
      }
      assert AgentKeyNames()[..KeySlots] == AgentKeyNames();
      if geminiKeys == [] {
        return Err(NoKeysMessage);
      }
      configuredKey := Some(geminiKeys[0]);
      r := Ok(());
    }

    /**
     * `rotate_key`: with keys loaded, moves to the next index modulo the pool
     * size and configures and returns that key; with no keys the modulo by
     * zero raises ZeroDivisionError and nothing changes.
     */
    method RotateKey() returns (r: Result<string, string>)
      requires Valid()
      modifies this
      ensures Valid()
      ensures geminiKeys == old(geminiKeys)
      ensures geminiKeys == [] ==> r == Err(ModuloByZero) && currentKeyIndex == old(currentKeyIndex) && configuredKey == old(configuredKey)
      ensures geminiKeys != [] ==>
        && currentKeyIndex == Next(old(currentKeyIndex), |geminiKeys|)
        && r == Ok(geminiKeys[currentKeyIndex])
        && configuredKey == Some(r.value)
    {
      if geminiKeys == [] {
        return Err(ModuloByZero);
      }
      currentKeyIndex := (currentKeyIndex + 1) % |geminiKeys|;
      var newKey := geminiKeys[currentKeyIndex];
      configuredKey := Some(newKey);
      r := Ok(newKey);
    }

    /** `safe_gemini_call`: the loop, proved to behave as `SafeCall`. */
    method SafeGeminiCall<P>(prompt: P, respond: GenerateRequest<P> -> Outcome<string>) returns (r: Result<string, CallError>)
      requires Valid()
      modifies this
      ensures Valid()
      ensures geminiKeys == old(geminiKeys)
      ensures var run := SafeCall(old(geminiKeys), old(currentKeyIndex), old(configuredKey), prompt, respond);
        r == run.result && currentKeyIndex == run.finalIndex && configuredKey == run.configuredKey
      ensures geminiKeys != [] ==> forall j :: 0 <= j < |geminiKeys| ==>
        KeyInUse(geminiKeys, old(currentKeyIndex), old(configuredKey), j).Some?
        && KeyInUse(geminiKeys, old(currentKeyIndex), old(configuredKey), j).value in geminiKeys
    {
      if geminiKeys != [] {
        forall j | 0 <= j < |geminiKeys|
          ensures KeyInUse(geminiKeys, currentKeyIndex, configuredKey, j).Some?
          ensures KeyInUse(geminiKeys, currentKeyIndex, configuredKey, j).value in geminiKeys
        {
          PoolKeysInUse(geminiKeys, currentKeyIndex, configuredKey, j);
        }
      }
      ghost var run := SafeCall(geminiKeys, currentKeyIndex, configuredKey, prompt, respond);
      var attempts := |geminiKeys|;
      var attempt := 0;
      while attempt < attempts
        invariant Valid() && geminiKeys == old(geminiKeys) && attempts == |geminiKeys|
        invariant attempt <= attempts
        invariant SafeCallFrom(geminiKeys, currentKeyIndex, configuredKey, attempt, prompt, respond).result == run.result
        invariant SafeCallFrom(geminiKeys, currentKeyIndex, configuredKey, attempt, prompt, respond).finalIndex == run.finalIndex
        invariant SafeCallFrom(geminiKeys, currentKeyIndex, configuredKey, attempt, prompt, respond).configuredKey == run.configuredKey
      {
        var outcome := respond(GenerateRequest(attempt, configuredKey, prompt));
        match outcome {
          case Success(text) =>
            return Ok(text);
          case Error(msg) =>
            if IsQuotaError(msg) {
              SafeCallRotates(geminiKeys, currentKeyIndex, configuredKey, attempt, prompt, respond, msg);
              var _ := RotateKey();
              attempt := attempt + 1;
            } else if IsServerError(msg) {
              SafeCallRotates(geminiKeys, currentKeyIndex, configuredKey, attempt, prompt, respond, msg);
              var _ := RotateKey();
              attempt := attempt + 1;
            } else {
              return Err(Raised(msg));
            }
        }
      }
      r := Err(AllKeysFailed);
    }
  }
}
