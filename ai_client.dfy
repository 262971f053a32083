/** The retry and fallback rules of the OpenAI-compatible client: which
    errors are retried, the exponential backoff, when the Responses API is
    abandoned for chat completions, and the request loop that combines them.
    The HTTP exchange itself is a parameter: the reply to each attempt. */
module AiClient {
  import opened Common

  const MAX_RETRIES: nat := 5
  const BACKOFF_BASE_SECS: nat := 1

  datatype AIError =
    | Unauthorized
    | RateLimited(retryAfter: Option<nat>)
    | ServerError(message: string)
    | NetworkError(message: string)
    | ParseError(message: string)
    | IncompleteSummary
    | ConfigError(message: string)

  // ---------------------------------------------------------------------
  // Predicates over errors and messages

  /** A message naming one of the phrases, ignoring ASCII case. */
  predicate Mentions(message: string, phrase: string)
  {
    Contains(ToLower(message), phrase)
  }

  /** `is_permanent_server_error`: the backend will never serve this request. */
  predicate IsPermanentServerError(message: string)
    ensures IsPermanentServerError(message) ==> |message| >= |"http 501"|
  {
    Mentions(message, "http 501") || Mentions(message, "not implemented")
    || Mentions(message, "does not support the responses api")
  }

  /** The test lower-cases the message first, so the case of the message does not matter. */
  lemma PermanentIgnoresCase(message: string)
    ensures IsPermanentServerError(ToLower(message)) == IsPermanentServerError(message)
  {
    ToLowerIdempotent(message);
  }

  /** `is_retryable`: rate limiting always, a server error unless permanent. */
  function IsRetryable(error: AIError): (r: bool)
    ensures error.RateLimited? ==> r
    ensures error.ServerError? ==> (r <==> !IsPermanentServerError(error.message))
    ensures !error.RateLimited? && !error.ServerError? ==> !r
  {
    match error
    case RateLimited(_) => true
    case ServerError(message) => !IsPermanentServerError(message)
    case _ => false
  }

  /** The message the client makes up for a 501 without a readable body is
      itself permanent, so such a reply is never retried. */
  lemma Http501NotRetried()
    ensures !IsRetryable(ServerError("HTTP " + NatToString(501)))
  {
    assert NatToString(501) == "501";
    Http501Permanent("HTTP " + NatToString(501));
  }

  lemma Http501Permanent(m: string)
    requires m == "HTTP 501"
    ensures IsPermanentServerError(m)
  {
    LowerIs(m, "http 501");
    assert OccursAt(ToLower(m), "http 501", 0);
  }

  function Pow2(n: nat): (r: nat)
    ensures r >= 1
  {
    if n == 0 then 1 else 2 * Pow2(n - 1)
  }

  /** `backoff_delay` in seconds: the base shifted left by the retry number.
      The shift of a `u64` by 64 or more overflows, so callers stay below. */
  function BackoffDelay(retry: nat): (secs: nat)
    requires retry < 64
    ensures secs >= 1
    ensures retry == 0 ==> secs == 1
  {
    BACKOFF_BASE_SECS * Pow2(retry)
  }

  /** Each retry waits twice as long as the one before. */
  lemma BackoffDoubles(retry: nat)
    requires retry + 1 < 64
    ensures BackoffDelay(retry + 1) == 2 * BackoffDelay(retry)
  {
  }

  /** The total wait before attempt `n`: 1 + 2 + ... + 2^(n-1). */
  function TotalBackoff(n: nat): nat
    requires n <= 64
  {
    if n == 0 then 0 else TotalBackoff(n - 1) + BackoffDelay(n - 1)
  }

  /** The delays double, so `n` waits add up to 2^n - 1 seconds. */
  lemma {:induction false} TotalBackoffClosed(n: nat)
    requires n <= 64
    ensures TotalBackoff(n) == Pow2(n) - 1
  {
    if n > 0 {
      TotalBackoffClosed(n - 1);
    }
  }

  /** `should_fallback_to_chat_completions`: the endpoint does not offer the
      Responses API. */
  predicate ShouldFallbackToChatCompletions(status: nat, message: string)
  {
    status == 501
    || status == 405
    || (status == 404 && (Mentions(message, "/responses") || Mentions(message, "responses")))
    || Mentions(message, "does not support the responses api")
    || (Mentions(message, "responses api") && Mentions(message, "not implemented"))
    || (Mentions(message, "/responses") && Mentions(message, "not found"))
  }

  /** Statuses 501 and 405 fall back whatever the message says. */
  lemma UnsupportedMethodFallsBack(message: string)
    ensures ShouldFallbackToChatCompletions(501, message)
    ensures ShouldFallbackToChatCompletions(405, message)
  {
  }

  /** `should_fallback_on_transport_message`: the connection was dropped, as
      some servers do for an unknown path. */
  predicate ShouldFallbackOnTransportMessage(message: string)
  {
    Mentions(message, "empty reply from server") || Mentions(message, "incomplete message")
    || Mentions(message, "unexpected eof") || Mentions(message, "connection reset")
    || Mentions(message, "connection closed") || Mentions(message, "connection was closed")
  }

  /** `should_fallback_on_transport_error`: never for timeouts or failed
      connects, otherwise by message. */
  function ShouldFallbackOnTransportError(isTimeout: bool, isConnect: bool, message: string): (r: bool)
    ensures isTimeout || isConnect ==> !r
    ensures !isTimeout && !isConnect ==> (r <==> ShouldFallbackOnTransportMessage(message))
  {
    if isTimeout || isConnect then false else ShouldFallbackOnTransportMessage(message)
  }

  /** `should_retry_chat_completion_without_reasoning`: a chat completion came
      back without content. */
  function ShouldRetryChatCompletionWithoutReasoning(error: AIError): (r: bool)
    ensures r ==> error.ParseError?
    ensures error.ParseError? ==>
              (r <==> Contains(error.message, "No message content in chat completion response")
                      || Contains(error.message, "No text content in chat completion response"))
  {
    match error
    case ParseError(message) =>
      Contains(message, "No message content in chat completion response")
      || Contains(message, "No text content in chat completion response")
    case _ => false
  }

  predicate IsServerErrorStatus(status: nat) { 500 <= status <= 599 }

  /** `should_retry_chat_completion_without_reasoning_message`: the backend
      refused the reasoning parameter. */
  function ShouldRetryWithoutReasoningMessage(status: nat, message: string): (r: bool)
    ensures r ==> IsServerErrorStatus(status) || status == 400
    ensures r ==> Mentions(message, "reasoning")
    ensures (IsServerErrorStatus(status) || status == 400) && Mentions(message, "reasoning") ==>
              (r <==> Mentions(message, "cannot unmarshal") || Mentions(message, "invalid request")
                      || Mentions(message, "unsupported") || Mentions(message, "not support"))
  {
    if !IsServerErrorStatus(status) && status != 400 then false
    else
      Mentions(message, "reasoning")
      && (Mentions(message, "cannot unmarshal") || Mentions(message, "invalid request")
          || Mentions(message, "unsupported") || Mentions(message, "not support"))
  }

  const OPENAI_HOST: string := "api.openai.com"

  /** `should_prefer_chat_completions`. `host` is the endpoint parsed as a URL:
      None when it does not parse, otherwise its host ("" when it has none). */
  function ShouldPreferChatCompletions(host: Option<string>, model: string): (r: bool)
    ensures ':' in model ==> r
    ensures ':' !in model && host.None? ==> !r
    ensures ':' !in model && host.Some? ==> (r <==> ToLower(host.value) != OPENAI_HOST)
  {
    if ':' in model then true
    else match host
      case None => false
      case Some(h) => ToLower(h) != OPENAI_HOST
  }

  /** `preferred_chat_completion_reasoning_effort`: "low" for a tagged model
      on a non-OpenAI host, otherwise no effort is sent. */
  function PreferredChatCompletionReasoningEffort(host: Option<string>, model: string): (r: Option<string>)
    ensures r.Some? ==> r.value == "low"
    ensures r.Some? <==> ':' in model && host.Some? && ToLower(host.value) != OPENAI_HOST
  {
    if ':' !in model then None
    else match host
      case None => None
      case Some(h) => if ToLower(h) == OPENAI_HOST then None else Some("low")
  }

  /** A reasoning effort is only ever sent on the chat-completions path. */
  lemma EffortImpliesChatPreferred(host: Option<string>, model: string)
    requires PreferredChatCompletionReasoningEffort(host, model).Some?
    ensures ShouldPreferChatCompletions(host, model)
  {
  }

  // ---------------------------------------------------------------------
  // The request loop

  /** What one attempt got back: a transport failure, or an HTTP reply with
      its status, the parsed success payload, the error message extracted
      from its body and the Retry-After value. */
  datatype Reply =
    | Transport(isTimeout: bool, isConnect: bool, message: string)
    | Http(status: nat, parsed: Result<string, AIError>, errorMessage: Option<string>, retryAfter: Option<nat>)

  /** What the loop does with one reply. */
  datatype Step =
    | Return(result: Result<string, AIError>)
    /** Retry while the budget lasts, otherwise fail with `error`. */
    | Retry(error: AIError)
    | Fallback

  /** The error message of a non-success reply, "HTTP <status>" when the body
      has none. */
  function ReplyMessage(status: nat, errorMessage: Option<string>): string
  {
    errorMessage.GetOr("HTTP " + NatToString(status))
  }

  /** One pass of the loop body in `create_response` (`withTools` false) or
      `create_response_with_tools` (`withTools` true). */
  function StepOf(reply: Reply, withTools: bool): (s: Step)
    ensures s.Fallback? ==> !withTools
    ensures s.Retry? && !(reply.Transport? && withTools) ==> IsRetryable(s.error)
    ensures reply.Http? && (reply.status == 401 || reply.status == 403) ==> s == Return(Err(Unauthorized))
    ensures reply.Http? && reply.status == 429 ==> s.Retry?
  {
    match reply
    case Transport(isTimeout, isConnect, message) =>
      if withTools then Retry(NetworkError(message))
      else if ShouldFallbackOnTransportError(isTimeout, isConnect, message) then Fallback
      else Return(Err(NetworkError(message)))
    case Http(status, parsed, errorMessage, retryAfter) =>
      if status == 200 then Return(parsed)
      else if status == 401 || status == 403 then Return(Err(Unauthorized))
      else if status == 429 then Retry(RateLimited(retryAfter))
      else
        var message := ReplyMessage(status, errorMessage);
        if !withTools && ShouldFallbackToChatCompletions(status, message) then Fallback
        else if IsServerErrorStatus(status) && IsRetryable(ServerError(message)) then Retry(ServerError(message))
        else Return(Err(ServerError(message)))
  }

  /** How a request ended: with a result, or handed over to chat completions. */
  datatype Outcome = Replied(result: Result<string, AIError>) | FellBackToChat

  /** The request loop. `reply(k)` is the reply to attempt `k`; the client
      sleeps `BackoffDelay(k)` seconds before attempt `k + 1`. Every attempt
      but the last asked for a retry, the last one decides the outcome, a
      retry request on the last allowed attempt gives up with its error, and
      the total sleep is 2^(attempts-1) - 1 seconds. */
  method SendWithRetry(reply: nat -> Reply, withTools: bool) returns (outcome: Outcome, attempts: nat, sleptSecs: nat)
    ensures 1 <= attempts <= MAX_RETRIES + 1
    ensures forall k :: 0 <= k < attempts - 1 ==> StepOf(reply(k), withTools).Retry?
    ensures var last := StepOf(reply(attempts - 1), withTools);
            (last.Return? ==> outcome == Replied(last.result))
            && (last.Fallback? ==> outcome == FellBackToChat)
            && (last.Retry? ==> attempts == MAX_RETRIES + 1 && outcome == Replied(Err(last.error)))
    ensures sleptSecs == TotalBackoff(attempts - 1) == Pow2(attempts - 1) - 1
  {
    var retries: nat := 0;
    sleptSecs := 0;
    while true
      invariant retries <= MAX_RETRIES
      invariant forall k :: 0 <= k < retries ==> StepOf(reply(k), withTools).Retry?
      invariant sleptSecs == TotalBackoff(retries)
      decreases MAX_RETRIES - retries
    {
      var step := StepOf(reply(retries), withTools);
      match step {
        case Return(result) =>
          outcome, attempts := Replied(result), retries + 1;
          TotalBackoffClosed(retries);
          return;
        case Fallback =>
          outcome, attempts := FellBackToChat, retries + 1;
          TotalBackoffClosed(retries);
          return;
        case Retry(error) =>
          if retries >= MAX_RETRIES {
            outcome, attempts := Replied(Err(error)), retries + 1;
            TotalBackoffClosed(retries);
            return;
          }
          sleptSecs := sleptSecs + BackoffDelay(retries);
          retries := retries + 1;
      }
    }
  }
}
