/** The AI-call wrapper of src/composables/useAI.js: `callClaude` (a
    bounded retry loop with observable `retryCount`, `error` and
    `isGenerating` state), `callClaudeJSON` and the result mapping of
    `batchGenerate`. The chat-completion endpoint is an oracle `backend`
    that answers attempt number `n` (counted over the client's lifetime)
    with a content string, null content or a failure message. */
module GenerationClient {
  import opened Wrappers
  import opened Strings
  import opened JsValues
  import opened JsonRecovery

  /** Retries after the first attempt: three attempts in all. */
  const MaxRetries: nat := 2

  const DefaultTemperature: real := 0.7
  const DefaultMaxTokens: int := 2000
  const DefaultModel: string := "anthropic/claude-sonnet-4.5"

  datatype Role = System | User
  datatype Message = Message(role: Role, content: string)

  /** The `config` argument; an absent field takes its default. */
  datatype Config = Config(temperature: Option<real>, maxTokens: Option<int>, model: Option<string>)

  const NoConfig := Config(None, None, None)

  datatype Request = Request(model: string, messages: seq<Message>, temperature: real, maxTokens: int)

  /** What the endpoint does with one attempt. The content of an answer is
      `choices[0].message.content` as it came, `None` standing for null. */
  datatype Outcome = Answer(content: Option<string>) | Failure(message: string)

  type Backend = (nat, Request) -> Outcome

  /** The chat messages: the system prompt first when it is not empty,
      then exactly one user message. */
  function BuildMessages(userPrompt: string, systemPrompt: string): (r: seq<Message>)
    ensures |r| >= 1 && r[|r| - 1] == Message(User, userPrompt)
    ensures |r| == if systemPrompt == "" then 1 else 2
    ensures (exists i :: 0 <= i < |r| && r[i].role == System) <==> systemPrompt != ""
    ensures forall i :: 0 <= i < |r| - 1 ==> r[i] == Message(System, systemPrompt)
    ensures forall i :: 0 <= i < |r| - 1 ==> r[i].role != User
  {
    if systemPrompt != "" then
      var r := [Message(System, systemPrompt), Message(User, userPrompt)];
      assert r[0].role == System;
      r
    else [Message(User, userPrompt)]
  }

  function BuildRequest(userPrompt: string, systemPrompt: string, config: Config): (r: Request)
    ensures r.temperature == config.temperature.GetOr(DefaultTemperature)
    ensures r.maxTokens == config.maxTokens.GetOr(DefaultMaxTokens)
    ensures r.model == config.model.GetOr(DefaultModel)
    ensures r.messages == BuildMessages(userPrompt, systemPrompt)
  {
    Request(config.model.GetOr(DefaultModel), BuildMessages(userPrompt, systemPrompt),
            config.temperature.GetOr(DefaultTemperature), config.maxTokens.GetOr(DefaultMaxTokens))
  }

  /** The message `callClaude` throws once every attempt has failed. */
  function ExhaustedMessage(last: string): string {
    "AI调用失败 (已重试" + NatToString(MaxRetries) + "次): " + last
  }

  // ---------------------------------------------------------------------------
  // The retry loop as a function of the oracle

  predicate AttemptFails(backend: Backend, req: Request, n: nat) {
    backend(n, req).Failure?
  }

  /** How one `callClaude` ends: its result, the failed attempts it saw
      (the final `retryCount`) and the final value of `error`. */
  datatype Run = Run(result: Result<Option<string>>, failures: nat, lastError: Option<string>)

  function AttemptCount(run: Run): nat {
    run.failures + if run.result.Ok? then 1 else 0
  }

  /** The loop from the state with `k` failed attempts behind it, the first
      attempt being number `base` of the oracle. */
  function RunFrom(req: Request, backend: Backend, base: nat, k: nat, lastError: Option<string>): Run
    requires k <= MaxRetries
    decreases MaxRetries - k
  {
    match backend(base + k, req)
    case Answer(content) => Run(Ok(content), k, lastError)
    case Failure(m) =>
      if k + 1 > MaxRetries then Run(Err(ExhaustedMessage(m)), k + 1, Some(m))
      else RunFrom(req, backend, base, k + 1, Some(m))
  }

  /** What the loop promises: every attempt before the last one failed;
      an answer is returned as it came, after at most two failures; a
      failure of the call comes after exactly three failed attempts and
      quotes the last one; `error` holds the last failure message seen. */
  lemma {:induction false} RunFromSpec(req: Request, backend: Backend, base: nat, k: nat, lastError: Option<string>)
    requires k <= MaxRetries
    ensures var r := RunFrom(req, backend, base, k, lastError);
            && k <= r.failures <= MaxRetries + 1
            && (forall n :: base + k <= n < base + r.failures ==> AttemptFails(backend, req, n))
            && (r.result.Ok? ==> r.failures <= MaxRetries && backend(base + r.failures, req) == Answer(r.result.value))
            && (r.result.Err? ==>
                  && r.failures == MaxRetries + 1
                  && backend(base + MaxRetries, req).Failure?
                  && r.result.message == ExhaustedMessage(backend(base + MaxRetries, req).message))
            && (r.failures > k ==>
                  && backend(base + r.failures - 1, req).Failure?
                  && r.lastError == Some(backend(base + r.failures - 1, req).message))
            && (r.failures == k ==> r.lastError == lastError)
    decreases MaxRetries - k
  {
    match backend(base + k, req)
    case Answer(_) =>
    case Failure(m) =>
      if k + 1 <= MaxRetries {
        RunFromSpec(req, backend, base, k + 1, Some(m));
      }
  }

  /** A whole `callClaude`, which starts with `error` null. */
  function RunCall(req: Request, backend: Backend, base: nat): Run {
    RunFrom(req, backend, base, 0, None)
  }

  /** After `k` <= 2 failures and then an answer, the call returns that
      answer with `retryCount` = `k`. */
  lemma SuccessAfterFailures(req: Request, backend: Backend, base: nat, k: nat)
    requires k <= MaxRetries
    requires forall n :: base <= n < base + k ==> AttemptFails(backend, req, n)
    requires backend(base + k, req).Answer?
    ensures RunCall(req, backend, base).result == Ok(backend(base + k, req).content)
    ensures RunCall(req, backend, base).failures == k
  {
    var r := RunCall(req, backend, base);
    RunFromSpec(req, backend, base, 0, None);
    assert !AttemptFails(backend, req, base + k);
    assert r.failures < k ==> AttemptFails(backend, req, base + r.failures);
  }

  /** Three failures in a row make the call fail with the message that
      quotes the retry bound and the last failure. */
  lemma ThreeFailures(req: Request, backend: Backend, base: nat)
    requires forall n :: base <= n <= base + MaxRetries ==> AttemptFails(backend, req, n)
    ensures backend(base + MaxRetries, req).Failure?
    ensures RunCall(req, backend, base).result == Err(ExhaustedMessage(backend(base + MaxRetries, req).message))
    ensures RunCall(req, backend, base).failures == MaxRetries + 1
  {
    var r := RunCall(req, backend, base);
    RunFromSpec(req, backend, base, 0, None);
    assert AttemptFails(backend, req, base + MaxRetries);
    assert r.result.Ok? ==> AttemptFails(backend, req, base + r.failures);
  }

  /** The failure text quotes the constant 2 and the last message. */
  lemma ExhaustedMessageShape(last: string)
    ensures ExhaustedMessage(last) == "AI调用失败 (已重试2次): " + last
  {
  }

  // ---------------------------------------------------------------------------
  // The client

  /** `n` copies of the same request: what `n` attempts send. */
  function Copies(req: Request, n: nat): (r: seq<Request>)
    ensures |r| == n && forall i :: 0 <= i < n ==> r[i] == req
  {
    if n == 0 then [] else Copies(req, n - 1) + [req]
  }

  lemma CopiesSnoc(req: Request, n: nat)
    ensures Copies(req, n) + [req] == Copies(req, n + 1)
  {
  }

  /** One turn of the loop, as the function sees it. */
  lemma StepRun(req: Request, backend: Backend, base: nat, k: nat, lastError: Option<string>)
    requires k <= MaxRetries
    ensures RunFrom(req, backend, base, k, lastError)
         == match backend(base + k, req)
            case Answer(content) => Run(Ok(content), k, lastError)
            case Failure(m) =>
              if k + 1 > MaxRetries then Run(Err(ExhaustedMessage(m)), k + 1, Some(m))
              else RunFrom(req, backend, base, k + 1, Some(m))
  {
  }

  /** What `callClaudeJSON` throws for null content: `response.trim()`
      throws, and so does `response.substring` in the handler, whose
      TypeError is the one that escapes. */
  const NullResponseMessage: string := TypeErrorMessage(Null, "substring")

  class AIClient {
    var isGenerating: bool
    var error: Option<string>
    var retryCount: nat
    /** Every request handed to the endpoint so far, in order. */
    var sent: seq<Request>

    constructor ()
      ensures !isGenerating && error == None && retryCount == 0 && sent == []
    {
      isGenerating := false;
      error := None;
      retryCount := 0;
      sent := [];
    }

    /** `callClaude(userPrompt, systemPrompt, config)`. */
    method CallClaude(userPrompt: string, systemPrompt: string, config: Config, backend: Backend)
      returns (r: Result<Option<string>>)
      modifies this
      ensures var run := RunCall(BuildRequest(userPrompt, systemPrompt, config), backend, |old(sent)|);
              && r == run.result
              && retryCount == run.failures
              && error == run.lastError
              && sent == old(sent) + Copies(BuildRequest(userPrompt, systemPrompt, config), AttemptCount(run))
      ensures !isGenerating
    {
      isGenerating := true;
      error := None;
      retryCount := 0;
      var req := BuildRequest(userPrompt, systemPrompt, config);
      ghost var base := |sent|;
      ghost var start := sent;
      while retryCount <= MaxRetries
        invariant retryCount <= MaxRetries
        invariant sent == start + Copies(req, retryCount)
        invariant RunFrom(req, backend, base, retryCount, error) == RunCall(req, backend, base)
        decreases MaxRetries - retryCount
      {
        var outcome := backend(|sent|, req);
        assert |sent| == base + retryCount;
        StepRun(req, backend, base, retryCount, error);
        CopiesSnoc(req, retryCount);
        sent := sent + [req];
        match outcome
        case Answer(content) =>
          isGenerating := false;
          return Ok(content);
        case Failure(m) =>
          retryCount := retryCount + 1;
          error := Some(m);
          if retryCount > MaxRetries {
            isGenerating := false;
            return Err(ExhaustedMessage(m));
          }
      }
      assert false;
    }

    /** `callClaudeJSON(userPrompt, systemPrompt, config)`, with
        `JSON.parse` given as `parse`: the prompt carries the JSON-only
        suffix, a failed call propagates its error unchanged, and the
        answer goes through the clean-up and extraction of `ParseResponse`. */
    method CallClaudeJSON(userPrompt: string, systemPrompt: string, config: Config, backend: Backend,
                          parse: string -> Option<Value>)
      returns (r: Result<Value>)
      modifies this
      ensures var req := BuildRequest(userPrompt + JsonOnlySuffix, systemPrompt, config);
              var run := RunCall(req, backend, |old(sent)|);
              && r == (match run.result
                       case Err(m) => Err(m)
                       case Ok(None) => Err(NullResponseMessage)
                       case Ok(Some(text)) => ParseResponse(text, parse))
              && retryCount == run.failures
              && error == run.lastError
              && sent == old(sent) + Copies(req, AttemptCount(run))
      ensures !isGenerating
    {
      var raw := CallClaude(userPrompt + JsonOnlySuffix, systemPrompt, config, backend);
      match raw
      case Err(m) => r := Err(m);
      case Ok(None) => r := Err(NullResponseMessage);
      case Ok(Some(text)) => r := ParseResponse(text, parse);
    }
  }

  // ---------------------------------------------------------------------------
  // batchGenerate

  /** One entry of `batchGenerate`'s answer: `{success: true, data, index}`
      or `{success: false, error, index}`. */
  datatype BatchItem = Succeeded(data: Option<string>, index: nat) | Failed(error: string, index: nat)

  /** The mapping of the settled calls to indexed results; `settled[i]` is
      how the call for prompt `i` ended. */
  function BatchResults(settled: seq<Result<Option<string>>>): (r: seq<BatchItem>)
    ensures |r| == |settled|
    ensures forall i :: 0 <= i < |r| ==> r[i].index == i
    ensures forall i :: 0 <= i < |r| ==> (r[i].Succeeded? <==> settled[i].Ok?)
    ensures forall i :: 0 <= i < |r| && settled[i].Ok? ==> r[i].data == settled[i].value
    ensures forall i :: 0 <= i < |r| && settled[i].Err? ==> r[i].error == settled[i].message
  {
    seq(|settled|, i requires 0 <= i < |settled| =>
      match settled[i]
      case Ok(v) => Succeeded(v, i)
      case Err(m) => Failed(m, i))
  }

  /** Results are positional: the entries for a concatenation of prompt
      lists are those of the first list followed by those of the second,
      renumbered. */
  lemma BatchResultsAppend(a: seq<Result<Option<string>>>, b: seq<Result<Option<string>>>)
    ensures var ra := BatchResults(a);
            var rab := BatchResults(a + b);
            rab[..|a|] == ra
            && forall i :: 0 <= i < |b| ==>
                 (rab[|a| + i].index == |a| + i && (rab[|a| + i].Succeeded? <==> b[i].Ok?))
  {
    var ra := BatchResults(a);
    var rab := BatchResults(a + b);
    assert forall i :: 0 <= i < |a| ==> (a + b)[i] == a[i];
    assert forall i :: 0 <= i < |b| ==> (a + b)[|a| + i] == b[i];
    forall i | 0 <= i < |a| ensures rab[i] == ra[i] {
      assert (a + b)[i] == a[i];
    }
  }
}
