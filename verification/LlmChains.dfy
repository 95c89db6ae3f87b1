/**
 The LLM proxy's three failover chains (services/inference-service/services/llm_service.py):
 buffered, streaming and multipart. Each is written out as the source writes it, against one shared
 specification. How a service resolves and what its upstream gives are oracles, one per service.
 */
module LlmChains {
  import opened Options

  datatype Json = Text(text: string) | Flag(flag: bool) | Object(members: map<string, Json>) | Other(id: int)

  /** A request body or form; anything but a JSON object has no model field to replace. */
  datatype Payload = Dict(fields: map<string, Json>) | NotDict(value: Json)

  /** One upstream call. Transport covers a stream whose headers or first line do not come in time. */
  datatype Upstream<B> = Response(code: int, body: B) | Transport(timedOut: bool)

  datatype Resolution =
    | NotFound
    | Unresolvable
    | Found(modelName: string, modelId: string, tiers: set<string>)

  datatype Candidate<B> = Candidate(id: string, resolution: Resolution, upstream: Upstream<B>)

  /** The body handed to the client: the upstream's own, its detail only, or one of the proxy's. */
  datatype Reply<B> =
    | Own(body: B)
    | DetailOf(body: B)
    | Stream(body: B)
    | TransportError
    | Rejection
    /** The guardrail's 503 before the call, or 500 after it. */
    | Blocked
    | AllUnavailable(requested: string)

  datatype Event =
    | Skipped(id: string, status: int)
    | Moved(id: string, reason: string)
    | AllFailed(tried: seq<string>)

  // ---------------------------------------------------------------------------------------
  // Resolution, tier gate and body
  // ---------------------------------------------------------------------------------------

  /** A caller without a tier, and a service without tiers, pass. */
  predicate PassesGate(tiers: set<string>, tier: string) { tier == "" || tiers == {} || tier in tiers }

  /** The status of the LLMProxyError, if the service must not be called. */
  function Refusal(r: Resolution, tier: string): Option<int> {
    match r
    case NotFound => Some(404)
    case Unresolvable => Some(503)
    case Found(_, _, tiers) => if PassesGate(tiers, tier) then None else Some(403)
  }

  predicate Eligible<B>(c: Candidate<B>, tier: string) { Refusal(c.resolution, tier).None? }

  function WithModel(payload: Payload, model: string): Payload {
    if payload.Dict? then Dict(payload.fields["model" := Text(model)]) else payload
  }

  /** The upstream's model name goes out, or the service id where none is configured. */
  function BodyFor<B>(payload: Payload, c: Candidate<B>, tier: string): Payload
    requires Eligible(c, tier)
  {
    var asked := WithModel(payload, c.id);
    if c.resolution.modelName != "" then WithModel(asked, c.resolution.modelName) else asked
  }

  function StreamOptions(fields: map<string, Json>): map<string, Json> {
    if "stream_options" in fields && fields["stream_options"].Object? then fields["stream_options"].members else map[]
  }

  function WithIncludeUsage(payload: Payload): Payload {
    if payload.NotDict? then payload
    else
      var options := StreamOptions(payload.fields);
      var usage := if "include_usage" in options then options["include_usage"] else Flag(true);
      Dict(payload.fields["stream_options" := Object(options["include_usage" := usage])])
  }

  /**
   Asking for usage keeps every other field and every other stream option, honours the client's own
   choice, and asking twice changes nothing.
   */
  lemma IncludeUsageHonoursClient(fields: map<string, Json>)
    ensures
      var sent := WithIncludeUsage(Dict(fields));
      && sent.Dict?
      && sent.fields.Keys == fields.Keys + {"stream_options"}
      && (forall k :: k in fields && k != "stream_options" ==> sent.fields[k] == fields[k])
      && sent.fields["stream_options"].Object?
      && var before, after := StreamOptions(fields), sent.fields["stream_options"].members;
         && after.Keys == before.Keys + {"include_usage"}
         && (forall k :: k in before ==> after[k] == before[k])
         && ("include_usage" !in before ==> after["include_usage"] == Flag(true))
         && WithIncludeUsage(sent) == sent
  {
    var sent := WithIncludeUsage(Dict(fields));
    var options := sent.fields["stream_options"].members;
    assert options["include_usage" := options["include_usage"]] == options;
    assert sent.fields["stream_options" := Object(options)] == sent.fields;
  }

  // ---------------------------------------------------------------------------------------
  // One attempt, in each of the three modes
  // ---------------------------------------------------------------------------------------

  datatype Mode = Buffered | Streaming | Multipart

  function Status<B>(u: Upstream<B>): int { if u.Transport? then 502 else u.code }

  function Reason<B>(u: Upstream<B>): string {
    if u.Transport? then (if u.timedOut then "timeout" else "unreachable") else "upstream_5xx"
  }

  predicate Down<B>(u: Upstream<B>) { Status(u) >= 500 }

  /** What the client sees of one attempt: an upstream below 400 starts a stream, always as 200. */
  function StatusIn<B>(mode: Mode, u: Upstream<B>): int {
    if mode.Streaming? && Status(u) < 400 then 200 else Status(u)
  }

  function ReplyIn<B>(mode: Mode, u: Upstream<B>): Reply<B> {
    if u.Transport? then TransportError
    else match mode
      case Buffered => if u.code >= 400 then DetailOf(u.body) else Own(u.body)
      case Streaming => if u.code >= 400 then Own(u.body) else Stream(u.body)
      case Multipart => Own(u.body)
  }

  // ---------------------------------------------------------------------------------------
  // The chain, declared
  // ---------------------------------------------------------------------------------------

  predicate Wins<B>(c: Candidate<B>, tier: string) { Eligible(c, tier) && !Down(c.upstream) }

  /** Number of leading fallbacks that do not win. */
  function FirstWinner<B>(fallbacks: seq<Candidate<B>>, tier: string): (k: nat)
    ensures k <= |fallbacks|
    ensures k < |fallbacks| ==> Wins(fallbacks[k], tier)
    ensures forall j :: 0 <= j < k ==> !Wins(fallbacks[j], tier)
  {
    if fallbacks == [] || Wins(fallbacks[0], tier) then 0 else 1 + FirstWinner(fallbacks[1..], tier)
  }

  datatype Server = Requested | Fallback(index: nat) | Nobody

  /** Fallbacks are not attempted for a payload without fields. */
  function Walked<B>(payload: Payload, fallbacks: seq<Candidate<B>>): seq<Candidate<B>> {
    if payload.Dict? then fallbacks else []
  }

  function ServedBy<B>(primary: Upstream<B>, payload: Payload, fallbacks: seq<Candidate<B>>, tier: string): Server {
    var k := FirstWinner(Walked(payload, fallbacks), tier);
    if !Down(primary) then Requested
    else if k < |Walked(payload, fallbacks)| then Fallback(k)
    else if fallbacks == [] then Requested
    else Nobody
  }

  function Reached<B>(walked: seq<Candidate<B>>, tier: string): (n: nat)
    ensures n <= |walked|
  {
    var k := FirstWinner(walked, tier);
    if k < |walked| then k + 1 else k
  }

  /** The services called, the requested one first; skipped fallbacks are not among them. */
  function Tried<B>(requested: string, fallbacks: seq<Candidate<B>>, tier: string, n: nat): seq<string>
    requires n <= |fallbacks|
  {
    if n == 0 then [requested]
    else Tried(requested, fallbacks, tier, n - 1) +
         if Eligible(fallbacks[n - 1], tier) then [fallbacks[n - 1].id] else []
  }

  function Sent<B>(payload: Payload, fallbacks: seq<Candidate<B>>, tier: string, n: nat): seq<Payload>
    requires n <= |fallbacks|
  {
    if n == 0 then []
    else Sent(payload, fallbacks, tier, n - 1) +
         if Eligible(fallbacks[n - 1], tier) then [BodyFor(payload, fallbacks[n - 1], tier)] else []
  }

  /** Why the chain moves on past its first n fallbacks: the failure of the service called last. */
  function ReasonAfter<B>(primary: Upstream<B>, fallbacks: seq<Candidate<B>>, tier: string, n: nat): string
    requires n <= |fallbacks|
  {
    if n == 0 then Reason(primary)
    else if Eligible(fallbacks[n - 1], tier) then Reason(fallbacks[n - 1].upstream)
    else ReasonAfter(primary, fallbacks, tier, n - 1)
  }

  function Log<B>(primary: Upstream<B>, fallbacks: seq<Candidate<B>>, tier: string, n: nat): seq<Event>
    requires n <= |fallbacks|
  {
    if n == 0 then []
    else
      var c := fallbacks[n - 1];
      Log(primary, fallbacks, tier, n - 1) +
      if Eligible(c, tier) then [Moved(c.id, ReasonAfter(primary, fallbacks, tier, n - 1))]
      else [Skipped(c.id, Refusal(c.resolution, tier).value)]
  }

  /** The model-id label after the first n fallbacks were prepared. */
  function LabelAfter<B>(start: string, fallbacks: seq<Candidate<B>>, tier: string, n: nat): string
    requires n <= |fallbacks|
  {
    if n == 0 then start
    else if Eligible(fallbacks[n - 1], tier) then fallbacks[n - 1].resolution.modelId
    else LabelAfter(start, fallbacks, tier, n - 1)
  }

  /** What one request leaves behind, whatever the mode. */
  datatype Trace = Trace(tried: seq<string>, sent: seq<Payload>, log: seq<Event>)

  function TraceOf<B>(requested: string, primary: Upstream<B>, payload: Payload, fallbacks: seq<Candidate<B>>,
                      tier: string): Trace {
    if !Down(primary) then Trace([requested], [], [])
    else
      var walked := Walked(payload, fallbacks);
      var n := Reached(walked, tier);
      var tried := Tried(requested, walked, tier, n);
      Trace(tried, Sent(payload, walked, tier, n),
            Log(primary, walked, tier, n) +
            if ServedBy(primary, payload, fallbacks, tier).Nobody? then [AllFailed(tried)] else [])
  }

  function FinalStatus<B>(mode: Mode, server: Server, primary: Upstream<B>, fallbacks: seq<Candidate<B>>): int {
    match server
    case Requested => StatusIn(mode, primary)
    case Fallback(k) => if k < |fallbacks| then StatusIn(mode, fallbacks[k].upstream) else 503
    case Nobody => 503
  }

  function FinalReply<B>(mode: Mode, requested: string, server: Server, primary: Upstream<B>,
                         fallbacks: seq<Candidate<B>>): Reply<B> {
    match server
    case Requested => ReplyIn(mode, primary)
    case Fallback(k) => if k < |fallbacks| then ReplyIn(mode, fallbacks[k].upstream) else AllUnavailable(requested)
    case Nobody => AllUnavailable(requested)
  }

  /** Status, reply, model-id label, request.state.service_id, and what was called and logged. */
  datatype Final<B> = Final(status: int, reply: Reply<B>, modelId: string, servingId: string, trace: Trace)

  /** The requested service was resolved; model and serving are the label and service id it started with. */
  function Expected<B>(mode: Mode, requested: Candidate<B>, payload: Payload, fallbacks: seq<Candidate<B>>,
                       tier: string, model: string, serving: string): Final<B>
    requires requested.resolution.Found?
  {
    var server := ServedBy(requested.upstream, payload, fallbacks, tier);
    Final(FinalStatus(mode, server, requested.upstream, fallbacks),
          FinalReply(mode, requested.id, server, requested.upstream, fallbacks),
          (match server
           case Requested => model
           case Fallback(k) => fallbacks[k].resolution.modelId
           case Nobody => requested.resolution.modelId),
          if server.Fallback? then fallbacks[server.index].id else serving,
          TraceOf(requested.id, requested.upstream, payload, fallbacks, tier))
  }

  /**
   The guardrail around a request: how it masks the payload, None when the policy cannot be evaluated or
   applied, and whether processing a successful answer fails.
   */
  datatype Guard = Guard(masked: Option<Payload -> Payload>, outputFails: bool)

  function Masked<B>(payload: Payload, requested: Candidate<B>, guard: Guard): Payload
    requires requested.resolution.Found? && guard.masked.Some?
  {
    guard.masked.value(Prepared(payload, requested))
  }

  function Shown<B>(guard: Guard, f: Final<B>): Final<B> {
    if f.status == 200 && guard.outputFails then f.(status := 500, reply := Blocked) else f
  }

  /** The service the answer is attributed to; the requested one when all fail. */
  function Winner<B>(requested: Candidate<B>, payload: Payload, fallbacks: seq<Candidate<B>>,
                     tier: string): (w: Candidate<B>)
    ensures ServedBy(requested.upstream, payload, fallbacks, tier).Fallback? ==> Wins(w, tier)
  {
    var server := ServedBy(requested.upstream, payload, fallbacks, tier);
    if server.Fallback? then fallbacks[server.index] else requested
  }

  // ---------------------------------------------------------------------------------------
  // One turn of a chain's loop
  // ---------------------------------------------------------------------------------------

  /** The loop's state after n fallbacks, none of which won. */
  ghost predicate At<B>(requested: Candidate<B>, payload: Payload, walked: seq<Candidate<B>>, tier: string,
                        model: string, n: nat, trace: Trace, reason: string, shown: string)
  {
    && n <= |walked|
    && (forall j :: 0 <= j < n ==> !Wins(walked[j], tier))
    && trace.tried == Tried(requested.id, walked, tier, n)
    && trace.sent == Sent(payload, walked, tier, n)
    && trace.log == Log(requested.upstream, walked, tier, n)
    && reason == ReasonAfter(requested.upstream, walked, tier, n)
    && shown == LabelAfter(model, walked, tier, n)
  }

  lemma FirstWinnerIs<B>(fallbacks: seq<Candidate<B>>, tier: string, k: nat)
    requires k <= |fallbacks| && forall j :: 0 <= j < k ==> !Wins(fallbacks[j], tier)
    requires k < |fallbacks| ==> Wins(fallbacks[k], tier)
    ensures FirstWinner(fallbacks, tier) == k
  {
  }

  lemma SkipKeepsAt<B>(requested: Candidate<B>, payload: Payload, walked: seq<Candidate<B>>, tier: string,
                       model: string, n: nat, trace: Trace, reason: string, shown: string)
    requires At(requested, payload, walked, tier, model, n, trace, reason, shown)
    requires n < |walked| && !Eligible(walked[n], tier)
    ensures At(requested, payload, walked, tier, model, n + 1,
               trace.(log := trace.log + [Skipped(walked[n].id, Refusal(walked[n].resolution, tier).value)]),
               reason, shown)
  {
  }

  function Called<B>(c: Candidate<B>, payload: Payload, tier: string, trace: Trace, reason: string): Trace
    requires Eligible(c, tier)
  {
    Trace(trace.tried + [c.id], trace.sent + [BodyFor(payload, c, tier)], trace.log + [Moved(c.id, reason)])
  }

  lemma FailureKeepsAt<B>(requested: Candidate<B>, payload: Payload, walked: seq<Candidate<B>>, tier: string,
                          model: string, n: nat, trace: Trace, reason: string, shown: string)
    requires At(requested, payload, walked, tier, model, n, trace, reason, shown)
    requires n < |walked| && Eligible(walked[n], tier) && Down(walked[n].upstream)
    ensures At(requested, payload, walked, tier, model, n + 1, Called(walked[n], payload, tier, trace, reason),
               Reason(walked[n].upstream), walked[n].resolution.modelId)
  {
  }

  lemma SuccessEnds<B>(mode: Mode, requested: Candidate<B>, payload: Payload, fallbacks: seq<Candidate<B>>,
                       tier: string,
                       model: string, serving: string, n: nat, trace: Trace, reason: string, shown: string)
    requires requested.resolution.Found? && Down(requested.upstream) && payload.Dict?
    requires At(requested, payload, fallbacks, tier, model, n, trace, reason, shown)
    requires n < |fallbacks| && Wins(fallbacks[n], tier)
    ensures
      var c := fallbacks[n];
      Expected(mode, requested, payload, fallbacks, tier, model, serving) ==
      Final(StatusIn(mode, c.upstream), ReplyIn(mode, c.upstream), c.resolution.modelId, c.id,
            Called(c, payload, tier, trace, reason))
    ensures ServedBy(requested.upstream, payload, fallbacks, tier).Fallback?
      && Winner(requested, payload, fallbacks, tier) == fallbacks[n]
  {
    FirstWinnerIs(fallbacks, tier, n);
  }

  /** No fallback was configured: the requested service's own failure stands. */
  lemma NoneConfigured<B>(mode: Mode, requested: Candidate<B>, payload: Payload, tier: string, model: string,
                          serving: string, trace: Trace, reason: string, shown: string)
    requires requested.resolution.Found? && Down(requested.upstream)
    requires At(requested, payload, [], tier, model, 0, trace, reason, shown)
    ensures Expected(mode, requested, payload, [], tier, model, serving) ==
            Final(StatusIn(mode, requested.upstream), ReplyIn(mode, requested.upstream), model, serving, trace)
    ensures !ServedBy(requested.upstream, payload, [], tier).Fallback?
  {
    FirstWinnerIs<B>([], tier, 0);
  }

  lemma AllFailedEnds<B>(mode: Mode, requested: Candidate<B>, payload: Payload, fallbacks: seq<Candidate<B>>,
                         tier: string, model: string, serving: string, trace: Trace, reason: string, shown: string)
    requires requested.resolution.Found? && Down(requested.upstream) && fallbacks != []
    requires At(requested, payload, Walked(payload, fallbacks), tier, model, |Walked(payload, fallbacks)|, trace,
                reason, shown)
    ensures Expected(mode, requested, payload, fallbacks, tier, model, serving) ==
            Final(503, AllUnavailable(requested.id), requested.resolution.modelId, serving,
                  trace.(log := trace.log + [AllFailed(trace.tried)]))
    ensures !ServedBy(requested.upstream, payload, fallbacks, tier).Fallback?
  {
    var walked := Walked(payload, fallbacks);
    FirstWinnerIs(walked, tier, |walked|);
  }

  // ---------------------------------------------------------------------------------------
  // The chains as the source runs them
  // ---------------------------------------------------------------------------------------

  class LlmProxy {
    /** self._failure_reason, the model-id context variable, and request.state.service_id. */
    var failureReason: Option<string>
    var modelId: string
    var servingId: string

    constructor (service: string)
      ensures failureReason == None && modelId == "" && servingId == service
    {
      failureReason, modelId, servingId := None, "", service;
    }

    /** _prepare_request: the label is set only once the service passed. */
    method PrepareRequest<B>(payload: Payload, c: Candidate<B>, tier: string)
      returns (refused: Option<int>, body: Payload)
      modifies this`modelId
      ensures refused == Refusal(c.resolution, tier)
      ensures modelId == if Eligible(c, tier) then c.resolution.modelId else old(modelId)
      ensures Eligible(c, tier) ==>
        body == if c.resolution.modelName != "" then WithModel(payload, c.resolution.modelName) else payload
    {
      body := payload;
      match c.resolution {
        case NotFound => refused := Some(404);
        case Unresolvable => refused := Some(503);
        case Found(name, model, tiers) =>
          if !PassesGate(tiers, tier) {
            return Some(403), body;
          }
          if name != "" {
            body := WithModel(payload, name);
          }
          modelId := model;
          refused := None;
      }
    }

    /** _forward_traced: error bodies are reduced to their detail. */
    method ForwardTraced<B>(u: Upstream<B>) returns (status: int, reply: Reply<B>)
      modifies this`failureReason
      ensures status == StatusIn(Buffered, u) && reply == ReplyIn(Buffered, u)
      ensures Down(u) ==> failureReason == Some(Reason(u))
    {
      match u {
        case Transport(timedOut) =>
          failureReason := Some(if timedOut then "timeout" else "unreachable");
          return 502, TransportError;
        case Response(code, body) =>
          failureReason := if code >= 500 then Some("upstream_5xx") else None;
          return code, if code >= 400 then DetailOf(body) else Own(body);
      }
    }

    /** proxy_stream: the kind is "error" exactly when no stream was started. */
    method ProxyStream<B>(u: Upstream<B>) returns (error: bool, status: int, reply: Reply<B>)
      modifies this`failureReason
      ensures error <==> Status(u) >= 400
      ensures status == StatusIn(Streaming, u) && reply == ReplyIn(Streaming, u)
      ensures Down(u) ==> failureReason == Some(Reason(u))
    {
      match u {
        case Transport(timedOut) =>
          failureReason := Some(if timedOut then "timeout" else "unreachable");
          return true, 502, TransportError;
        case Response(code, body) =>
          if code >= 400 {
            failureReason := if code >= 500 then Some("upstream_5xx") else None;
            return true, code, Own(body);
          }
          return false, 200, Stream(body);
      }
    }

    method PostMultipart<B>(u: Upstream<B>) returns (status: int, reply: Reply<B>)
      modifies this`failureReason
      ensures status == StatusIn(Multipart, u) && reply == ReplyIn(Multipart, u)
      ensures Down(u) ==> failureReason == Some(Reason(u))
    {
      match u {
        case Transport(timedOut) =>
          failureReason := Some(if timedOut then "timeout" else "unreachable");
          return 502, TransportError;
        case Response(code, body) =>
          failureReason := if code >= 500 then Some("upstream_5xx") else None;
          return code, Own(body);
      }
    }

    function ReasonOrDefault(): string
      reads this
    {
      if failureReason.Some? && failureReason.value != "" then failureReason.value else "upstream_5xx"
    }

    /** _run_fallback_chain_llm, given the requested service's own outcome. */
    method RunFallbackChain<B>(requested: Candidate<B>, payload: Payload, fallbacks: seq<Candidate<B>>, tier: string,
                               status0: int, reply0: Reply<B>)
      returns (status: int, reply: Reply<B>, trace: Trace)
      requires requested.resolution.Found?
      requires status0 == StatusIn(Buffered, requested.upstream) && reply0 == ReplyIn(Buffered, requested.upstream)
      requires Down(requested.upstream) ==> failureReason == Some(Reason(requested.upstream))
      modifies this
      ensures Final(status, reply, modelId, servingId, trace)
           == Expected(Buffered, requested, payload, fallbacks, tier, old(modelId), old(servingId))
    {
      status, reply, trace := status0, reply0, Trace([requested.id], [], []);
      if status < 500 {
        return;
      }
      var reason := ReasonOrDefault();
      var walked := if payload.Dict? then fallbacks else [];
      var i := 0;
      while i < |walked|
        invariant 0 <= i <= |walked| && status >= 500 && (i == 0 ==> status == status0 && reply == reply0)
        invariant At(requested, payload, walked, tier, old(modelId), i, trace, reason, modelId)
        invariant servingId == old(servingId)
      {
        var c := walked[i];
        ghost var before, shown := trace, modelId;
        var refused, body := PrepareRequest(WithModel(payload, c.id), c, tier);
        if refused.Some? {
          trace := trace.(log := trace.log + [Skipped(c.id, refused.value)]);
          SkipKeepsAt(requested, payload, walked, tier, old(modelId), i, before, reason, shown);
        } else {
          trace := Trace(trace.tried + [c.id], trace.sent + [body], trace.log + [Moved(c.id, reason)]);
          status, reply := ForwardTraced(c.upstream);
          if status < 500 {
            servingId := c.id;
            SuccessEnds(Buffered, requested, payload, fallbacks, tier, old(modelId), old(servingId), i, before, reason,
                        shown);
            return;
          }
          FailureKeepsAt(requested, payload, walked, tier, old(modelId), i, before, reason, shown);
          reason := ReasonOrDefault();
        }
        i := i + 1;
      }
      if fallbacks != [] {
        AllFailedEnds(Buffered, requested, payload, fallbacks, tier, old(modelId), old(servingId), trace, reason,
                      modelId);
        trace := trace.(log := trace.log + [AllFailed(trace.tried)]);
        modelId := requested.resolution.modelId;
        status, reply := 503, AllUnavailable(requested.id);
      } else {
        NoneConfigured(Buffered, requested, payload, tier, old(modelId), old(servingId), trace, reason, modelId);
      }
    }

    /** _proxy_stream_with_fallbacks: also the service whose spans and billing the stream gets. */
    method ProxyStreamWithFallbacks<B>(requested: Candidate<B>, payload: Payload, fallbacks: seq<Candidate<B>>,
                                       tier: string)
      returns (error: bool, status: int, reply: Reply<B>, winner: Candidate<B>, sent: Payload, trace: Trace)
      requires requested.resolution.Found?
      modifies this
      ensures Final(status, reply, modelId, servingId, trace)
           == Expected(Streaming, requested, payload, fallbacks, tier, old(modelId), old(servingId))
      ensures error <==> status >= 400
      ensures winner == Winner(requested, payload, fallbacks, tier)
      ensures sent == if ServedBy(requested.upstream, payload, fallbacks, tier).Fallback?
        then BodyFor(payload, winner, tier) else payload
    {
      winner, sent, trace := requested, payload, Trace([requested.id], [], []);
      error, status, reply := ProxyStream(requested.upstream);
      if !error || status < 500 {
        return;
      }
      var reason := ReasonOrDefault();
      var walked := if payload.Dict? then fallbacks else [];
      var i := 0;
      while i < |walked|
        invariant 0 <= i <= |walked| && error && status >= 500
        invariant i == 0
          ==> status == StatusIn(Streaming, requested.upstream) && reply == ReplyIn(Streaming, requested.upstream)
        invariant At(requested, payload, walked, tier, old(modelId), i, trace, reason, modelId)
        invariant servingId == old(servingId)
      {
        var c := walked[i];
        ghost var before, shown := trace, modelId;
        var refused, body := PrepareRequest(WithModel(payload, c.id), c, tier);
        if refused.Some? {
          trace := trace.(log := trace.log + [Skipped(c.id, refused.value)]);
          SkipKeepsAt(requested, payload, walked, tier, old(modelId), i, before, reason, shown);
        } else {
          trace := Trace(trace.tried + [c.id], trace.sent + [body], trace.log + [Moved(c.id, reason)]);
          error, status, reply := ProxyStream(c.upstream);
          if !error || status < 500 {
            winner, sent, servingId := c, body, c.id;
            SuccessEnds(Streaming, requested, payload, fallbacks, tier, old(modelId), old(servingId), i, before,
                        reason, shown);
            return;
          }
          FailureKeepsAt(requested, payload, walked, tier, old(modelId), i, before, reason, shown);
          reason := ReasonOrDefault();
        }
        i := i + 1;
      }
      if fallbacks != [] {
        AllFailedEnds(Streaming, requested, payload, fallbacks, tier, old(modelId), old(servingId), trace, reason,
                      modelId);
        trace := trace.(log := trace.log + [AllFailed(trace.tried)]);
        modelId := winner.resolution.modelId;
        status, reply := 503, AllUnavailable(requested.id);
      } else {
        NoneConfigured(Streaming, requested, payload, tier, old(modelId), old(servingId), trace, reason, modelId);
      }
    }

    /** _multipart_with_fallbacks. */
    method MultipartWithFallbacks<B>(requested: Candidate<B>, data: Payload, fallbacks: seq<Candidate<B>>, tier: string)
      returns (status: int, reply: Reply<B>, trace: Trace)
      requires requested.resolution.Found?
      modifies this
      ensures Final(status, reply, modelId, servingId, trace)
           == Expected(Multipart, requested, data, fallbacks, tier, old(modelId), old(servingId))
    {
      trace := Trace([requested.id], [], []);
      status, reply := PostMultipart(requested.upstream);
      if status < 500 {
        return;
      }
      var reason := ReasonOrDefault();
      var walked := if data.Dict? then fallbacks else [];
      var i := 0;
      while i < |walked|
        invariant 0 <= i <= |walked| && status >= 500
        invariant i == 0
          ==> status == StatusIn(Multipart, requested.upstream) && reply == ReplyIn(Multipart, requested.upstream)
        invariant At(requested, data, walked, tier, old(modelId), i, trace, reason, modelId)
        invariant servingId == old(servingId)
      {
        var c := walked[i];
        ghost var before, shown := trace, modelId;
        var refused, body := PrepareRequest(WithModel(data, c.id), c, tier);
        if refused.Some? {
          trace := trace.(log := trace.log + [Skipped(c.id, refused.value)]);
          SkipKeepsAt(requested, data, walked, tier, old(modelId), i, before, reason, shown);
        } else {
          trace := Trace(trace.tried + [c.id], trace.sent + [body], trace.log + [Moved(c.id, reason)]);
          status, reply := PostMultipart(c.upstream);
          if status < 500 {
            servingId := c.id;
            SuccessEnds(Multipart, requested, data, fallbacks, tier, old(modelId), old(servingId), i, before, reason,
                        shown);
            return;
          }
          FailureKeepsAt(requested, data, walked, tier, old(modelId), i, before, reason, shown);
          reason := ReasonOrDefault();
        }
        i := i + 1;
      }
      if fallbacks != [] {
        AllFailedEnds(Multipart, requested, data, fallbacks, tier, old(modelId), old(servingId), trace, reason,
                      modelId);
        trace := trace.(log := trace.log + [AllFailed(trace.tried)]);
        modelId := requested.resolution.modelId;
        status, reply := 503, AllUnavailable(requested.id);
      } else {
        NoneConfigured(Multipart, requested, data, tier, old(modelId), old(servingId), trace, reason, modelId);
      }
    }

    /**
     proxy_traced: a refused service is answered with its refusal, a payload the guardrail cannot mask
     with 503, and nothing is called; a 200 whose body it cannot process becomes 500.
     */
    method ProxyTraced<B>(requested: Candidate<B>, payload: Payload, fallbacks: seq<Candidate<B>>, tier: string,
                          guard: Guard)
      returns (status: int, reply: Reply<B>, trace: Trace)
      modifies this
      ensures !Eligible(requested, tier) ==>
        && Final(status, reply, modelId, servingId, trace)
        == Final(Refusal(requested.resolution, tier).value, Rejection, old(modelId), old(servingId), Trace([], [], []))
      ensures requested.resolution.NotFound? ==> status == 404
      ensures requested.resolution.Unresolvable? ==> status == 503
      ensures requested.resolution.Found? && !Eligible(requested, tier) ==> status == 403
      ensures Eligible(requested, tier) && guard.masked.None? ==>
        && Final(status, reply, modelId, servingId, trace)
        == Final(503, Blocked, requested.resolution.modelId, old(servingId), Trace([], [], []))
      ensures Eligible(requested, tier) && guard.masked.Some? ==>
        Final(status, reply, modelId, servingId, trace)
        == Shown(guard, Expected(Buffered, requested, Masked(payload, requested, guard), fallbacks, tier,
                                 requested.resolution.modelId, old(servingId)))
      ensures Eligible(requested, tier) && guard.masked.Some? && requested.upstream.Response? ==>
        var code, body := requested.upstream.code, requested.upstream.body;
        && (code == 200 ==> if guard.outputFails then status == 500 && reply == Blocked
                            else status == 200 && reply == Own(body))
        && (code < 400 && code != 200 ==> status == code && reply == Own(body))
        && (400 <= code < 500 ==> status == code && reply == DetailOf(body))
    {
      var refused, body := PrepareRequest(payload, requested, tier);
      if refused.Some? {
        return refused.value, Rejection, Trace([], [], []);
      }
      if guard.masked.None? {
        return 503, Blocked, Trace([], [], []);
      }
      status, reply := ForwardTraced(requested.upstream);
      status, reply, trace := RunFallbackChain(requested, guard.masked.value(body), fallbacks, tier, status, reply);
      if status == 200 && guard.outputFails {
        status, reply := 500, Blocked;
      }
    }

    /** proxy_traced_stream: every attempt asks for the usage block. */
    method ProxyTracedStream<B>(requested: Candidate<B>, payload: Payload, fallbacks: seq<Candidate<B>>, tier: string,
                                guard: Guard)
      returns (error: bool, status: int, reply: Reply<B>, winner: Candidate<B>, trace: Trace)
      modifies this
      ensures !Eligible(requested, tier) ==>
        && error && winner == requested
        && Final(status, reply, modelId, servingId, trace)
        == Final(Refusal(requested.resolution, tier).value, Rejection, old(modelId), old(servingId), Trace([], [], []))
      ensures requested.resolution.NotFound? ==> status == 404
      ensures requested.resolution.Unresolvable? ==> status == 503
      ensures requested.resolution.Found? && !Eligible(requested, tier) ==> status == 403
      ensures Eligible(requested, tier) && guard.masked.None? ==>
        && error && winner == requested
        && Final(status, reply, modelId, servingId, trace)
        == Final(503, Blocked, requested.resolution.modelId, old(servingId), Trace([], [], []))
      ensures Eligible(requested, tier) && guard.masked.Some? ==>
        Final(status, reply, modelId, servingId, trace)
        == Expected(Streaming, requested, WithIncludeUsage(Masked(payload, requested, guard)), fallbacks, tier,
                    requested.resolution.modelId, old(servingId))
      ensures Eligible(requested, tier) && guard.masked.Some? && requested.upstream.Response? ==>
        var code, body := requested.upstream.code, requested.upstream.body;
        && (code < 400 ==> !error && status == 200 && reply == Stream(body))
        && (400 <= code < 500 ==> error && status == code && reply == Own(body))
    {
      var refused, body := PrepareRequest(payload, requested, tier);
      if refused.Some? {
        return true, refused.value, Rejection, requested, Trace([], [], []);
      }
      if guard.masked.None? {
        return true, 503, Blocked, requested, Trace([], [], []);
      }
      var sent;
      error, status, reply, winner, sent, trace :=
        ProxyStreamWithFallbacks(requested, WithIncludeUsage(guard.masked.value(body)), fallbacks, tier);
    }

    /** proxy_multipart: resolves on its own, without setting the label. */
    method ProxyMultipart<B>(requested: Candidate<B>, data: Payload, fallbacks: seq<Candidate<B>>, tier: string)
      returns (status: int, reply: Reply<B>, trace: Trace)
      modifies this
      ensures !Eligible(requested, tier) ==>
        && Final(status, reply, modelId, servingId, trace)
        == Final(Refusal(requested.resolution, tier).value, Rejection, old(modelId), old(servingId), Trace([], [], []))
      ensures requested.resolution.NotFound? ==> status == 404
      ensures requested.resolution.Unresolvable? ==> status == 503
      ensures requested.resolution.Found? && !Eligible(requested, tier) ==> status == 403
      ensures Eligible(requested, tier) ==>
        Final(status, reply, modelId, servingId, trace)
        == Expected(Multipart, requested, Prepared(data, requested), fallbacks, tier, old(modelId), old(servingId))
      ensures Eligible(requested, tier) && requested.upstream.Response? && requested.upstream.code < 500 ==>
        status == requested.upstream.code && reply == Own(requested.upstream.body)
    {
      var refused := Refusal(requested.resolution, tier);
      if refused.Some? {
        return refused.value, Rejection, Trace([], [], []);
      }
      status, reply, trace := MultipartWithFallbacks(requested, Prepared(data, requested), fallbacks, tier);
    }
  }

  // ---------------------------------------------------------------------------------------
  // What one service contributes
  // ---------------------------------------------------------------------------------------

  /** A service may be called when it resolves and a caller who has a tier finds it among the service's, if any. */
  lemma CallableExactly<B>(c: Candidate<B>, tier: string)
    ensures Eligible(c, tier) <==>
      c.resolution.Found? && (tier != "" && c.resolution.tiers != {} ==> tier in c.resolution.tiers)
    ensures Refusal(c.resolution, tier) == Some(404) <==> c.resolution.NotFound?
    ensures Refusal(c.resolution, tier) == Some(503) <==> c.resolution.Unresolvable?
    ensures Refusal(c.resolution, tier) == Some(403) <==>
      c.resolution.Found? && tier != "" && c.resolution.tiers != {} && tier !in c.resolution.tiers
  {
  }

  /** The chain moves on from a transport failure and from a 5xx answer, and logs which it was. */
  lemma FailureExactly<B>(u: Upstream<B>)
    ensures Down(u) <==> u.Transport? || u.code >= 500
    ensures Reason(u) == "timeout" <==> u.Transport? && u.timedOut
    ensures Reason(u) == "unreachable" <==> u.Transport? && !u.timedOut
    ensures Reason(u) == "upstream_5xx" <==> u.Response?
  {
  }

  /**
   What the client gets of the answering upstream. Below 400: the body, whole, under the upstream's
   status; a stream starts as 200. From 400 on: the status, with the body's detail when buffered and the
   whole body otherwise. Without any answer: 502 for a single service, 503 for a chain.
   */
  lemma AnswerExactly<B>(mode: Mode, requested: Candidate<B>, payload: Payload, fallbacks: seq<Candidate<B>>,
                         tier: string, model: string, serving: string)
    requires requested.resolution.Found?
    ensures
      var f := Expected(mode, requested, payload, fallbacks, tier, model, serving);
      var answer := Answering(ServedBy(requested.upstream, payload, fallbacks, tier), requested.upstream, fallbacks);
      && (answer.None? ==> f.status == 503 && f.reply == AllUnavailable(requested.id))
      && (answer.Some? && answer.value.Transport? ==> f.status == 502 && f.reply == TransportError)
      && (answer.Some? && answer.value.Response? && answer.value.code < 400 ==>
            if mode == Streaming then f.status == 200 && f.reply == Stream(answer.value.body)
            else f.status == answer.value.code && f.reply == Own(answer.value.body))
      && (answer.Some? && answer.value.Response? && answer.value.code >= 400 ==>
            && f.status == answer.value.code
            && f.reply == if mode == Buffered then DetailOf(answer.value.body) else Own(answer.value.body))
  {
  }

  /** Under whose name the request is recorded: the serving fallback's, or what it came with. */
  lemma RecordedExactly<B>(mode: Mode, requested: Candidate<B>, payload: Payload, fallbacks: seq<Candidate<B>>,
                           tier: string, model: string, serving: string)
    requires requested.resolution.Found?
    ensures
      var f := Expected(mode, requested, payload, fallbacks, tier, model, serving);
      match ServedBy(requested.upstream, payload, fallbacks, tier)
      case Requested => f.modelId == model && f.servingId == serving
      case Nobody => f.modelId == requested.resolution.modelId && f.servingId == serving
      case Fallback(k) =>
        && k < |fallbacks| && fallbacks[k].resolution.Found?
        && f.modelId == fallbacks[k].resolution.modelId && f.servingId == fallbacks[k].id
        && Winner(requested, payload, fallbacks, tier) == fallbacks[k]
  {
  }

  /** One entry for every fallback reached: skipped with its refusal, or called and why. */
  lemma {:induction false} LogExactly<B>(primary: Upstream<B>, fallbacks: seq<Candidate<B>>, tier: string,
                                         n: nat, j: nat)
    requires j < n <= |fallbacks|
    ensures |Log(primary, fallbacks, tier, n)| == n
    ensures Eligible(fallbacks[j], tier) ==>
      Log(primary, fallbacks, tier, n)[j] == Moved(fallbacks[j].id, ReasonAfter(primary, fallbacks, tier, j))
    ensures !Eligible(fallbacks[j], tier) ==>
      Log(primary, fallbacks, tier, n)[j] == Skipped(fallbacks[j].id, Refusal(fallbacks[j].resolution, tier).value)
  {
    if j < n - 1 {
      LogExactly(primary, fallbacks, tier, n - 1, j);
    } else if n > 1 {
      LogExactly(primary, fallbacks, tier, n - 1, 0);
    }
  }

  // ---------------------------------------------------------------------------------------
  // What the three modes have in common
  // ---------------------------------------------------------------------------------------

  /** A fallback serves exactly when everything callable before it, the requested service too, gave 5xx. */
  lemma FallbackServesExactly<B>(primary: Upstream<B>, payload: Payload, fallbacks: seq<Candidate<B>>, tier: string,
                                 k: nat)
    ensures ServedBy(primary, payload, fallbacks, tier) == Fallback(k) <==>
      && payload.Dict? && Down(primary) && k < |fallbacks| && Eligible(fallbacks[k], tier)
        && !Down(fallbacks[k].upstream)
      && forall j :: 0 <= j < k && Eligible(fallbacks[j], tier) ==> Down(fallbacks[j].upstream)
  {
    if payload.Dict? && k < |fallbacks| && Wins(fallbacks[k], tier)
       && forall j :: 0 <= j < k && Eligible(fallbacks[j], tier) ==> Down(fallbacks[j].upstream) {
      assert forall j :: 0 <= j < k ==> !Wins(fallbacks[j], tier);
      FirstWinnerIs(fallbacks, tier, k);
    }
  }

  /** 503 all-unavailable, exactly when fallbacks are configured and every callable service gave 5xx. */
  lemma NobodyServesExactly<B>(primary: Upstream<B>, payload: Payload, fallbacks: seq<Candidate<B>>, tier: string)
    ensures ServedBy(primary, payload, fallbacks, tier) == Nobody <==>
      && Down(primary) && fallbacks != []
      && (payload.Dict? ==> forall j :: 0 <= j < |fallbacks| && Eligible(fallbacks[j], tier) ==>
        Down(fallbacks[j].upstream))
  {
    var walked := Walked(payload, fallbacks);
    if forall j :: 0 <= j < |walked| && Eligible(walked[j], tier) ==> Down(walked[j].upstream) {
      FirstWinnerIs(walked, tier, |walked|);
    }
  }

  /** The services called after the requested one are the eligible fallbacks, in order, and no others. */
  lemma {:induction false} TriedIsEligibleInOrder<B>(requested: string, payload: Payload, fallbacks: seq<Candidate<B>>,
                                                     tier: string, n: nat, i: nat)
    returns (j: nat)
    requires n <= |fallbacks| && i < |Sent(payload, fallbacks, tier, n)|
    ensures |Tried(requested, fallbacks, tier, n)| == 1 + |Sent(payload, fallbacks, tier, n)|
    ensures j < n && Eligible(fallbacks[j], tier) && |Sent(payload, fallbacks, tier, j)| == i
    ensures Tried(requested, fallbacks, tier, n)[0] == requested
    ensures Tried(requested, fallbacks, tier, n)[i + 1] == fallbacks[j].id
    ensures Sent(payload, fallbacks, tier, n)[i] == BodyFor(payload, fallbacks[j], tier)
  {
    TriedLength(requested, payload, fallbacks, tier, n);
    TriedLength(requested, payload, fallbacks, tier, n - 1);
    if i < |Sent(payload, fallbacks, tier, n - 1)| {
      j := TriedIsEligibleInOrder(requested, payload, fallbacks, tier, n - 1, i);
    } else {
      j := n - 1;
    }
  }

  lemma {:induction false} TriedLength<B>(requested: string, payload: Payload, fallbacks: seq<Candidate<B>>,
                                          tier: string, n: nat)
    requires n <= |fallbacks|
    ensures |Tried(requested, fallbacks, tier, n)| == 1 + |Sent(payload, fallbacks, tier, n)|
    ensures Tried(requested, fallbacks, tier, n)[0] == requested
  {
    if n > 0 {
      TriedLength(requested, payload, fallbacks, tier, n - 1);
    }
  }

  lemma {:induction false} SentPrefix<B>(payload: Payload, fallbacks: seq<Candidate<B>>, tier: string, m: nat, n: nat)
    requires m <= n <= |fallbacks|
    ensures Sent(payload, fallbacks, tier, m) <= Sent(payload, fallbacks, tier, n)
  {
    if m < n {
      SentPrefix(payload, fallbacks, tier, m, n - 1);
    }
  }

  /** Every eligible fallback that was reached was called, once, with its own body. */
  lemma EligibleWasCalled<B>(payload: Payload, fallbacks: seq<Candidate<B>>, tier: string, n: nat, j: nat)
    requires j < n <= |fallbacks| && Eligible(fallbacks[j], tier)
    ensures
      var i := |Sent(payload, fallbacks, tier, j)|;
      i < |Sent(payload, fallbacks, tier, n)|
        && Sent(payload, fallbacks, tier, n)[i] == BodyFor(payload, fallbacks[j], tier)
  {
    SentPrefix(payload, fallbacks, tier, j + 1, n);
  }

  /** The requested service's own body: its upstream's model name, where one is configured. */
  function Prepared<B>(payload: Payload, c: Candidate<B>): Payload
    requires c.resolution.Found?
  {
    if c.resolution.modelName != "" then WithModel(payload, c.resolution.modelName) else payload
  }

  /** The payload with the model field alone replaced. */
  predicate OnlyModelReplaced(fields: map<string, Json>, body: Payload, model: string) {
    && body.Dict? && body.fields.Keys == fields.Keys + {"model"}
    && body.fields["model"] == Text(model)
    && forall k :: k in fields && k != "model" ==> body.fields[k] == fields[k]
  }

  /**
   Each attempt carries the chain's payload with the model field alone replaced; when no guardrail masks
   it, that is what the client sent.
   */
  lemma OnlyModelDiffers<B>(fields: map<string, Json>, requested: Candidate<B>, c: Candidate<B>, tier: string)
    requires Eligible(requested, tier) && Eligible(c, tier)
    ensures
      var model := c.resolution.modelName;
      && (model != "" ==> OnlyModelReplaced(fields, BodyFor(Dict(fields), c, tier), model))
      && (model == "" ==> OnlyModelReplaced(fields, BodyFor(Dict(fields), c, tier), c.id))
      && BodyFor(Prepared(Dict(fields), requested), c, tier) == BodyFor(Dict(fields), c, tier)
    ensures
      var model := requested.resolution.modelName;
      && (model != "" ==> OnlyModelReplaced(fields, Prepared(Dict(fields), requested), model))
      && (model == "" ==> Prepared(Dict(fields), requested) == Dict(fields))
  {
  }

  /** The reason logged for a move is the failure of the last service called before it. */
  lemma {:induction false} ReasonIsLastCalled<B>(primary: Upstream<B>, fallbacks: seq<Candidate<B>>, tier: string,
                                                 j: nat, n: nat)
    requires j < n <= |fallbacks| && Eligible(fallbacks[j], tier)
    requires forall i :: j < i < n ==> !Eligible(fallbacks[i], tier)
    ensures ReasonAfter(primary, fallbacks, tier, n) == Reason(fallbacks[j].upstream)
  {
    if j < n - 1 {
      ReasonIsLastCalled(primary, fallbacks, tier, j, n - 1);
    }
  }

  /** Before any fallback was called it is the failure of the requested service. */
  lemma {:induction false} ReasonIsPrimarys<B>(primary: Upstream<B>, fallbacks: seq<Candidate<B>>, tier: string, n: nat)
    requires n <= |fallbacks| && forall i :: 0 <= i < n ==> !Eligible(fallbacks[i], tier)
    ensures ReasonAfter(primary, fallbacks, tier, n) == Reason(primary)
  {
    if n > 0 {
      ReasonIsPrimarys(primary, fallbacks, tier, n - 1);
    }
  }

  /** The upstream whose answer the client gets. */
  function Answering<B>(server: Server, primary: Upstream<B>, fallbacks: seq<Candidate<B>>): Option<Upstream<B>> {
    match server
    case Requested => Some(primary)
    case Fallback(k) => if k < |fallbacks| then Some(fallbacks[k].upstream) else None
    case Nobody => None
  }

  /**
   The three chains agree on everything but one status: a stream is always reported as 200, so an
   upstream answer below 400 other than 200 (201, 302) reads differently, and only that.
   */
  lemma ModesAgreeExactly<B>(requested: Candidate<B>, payload: Payload, fallbacks: seq<Candidate<B>>, tier: string,
                             model: string, serving: string)
    requires requested.resolution.Found?
    ensures
      var b := Expected(Buffered, requested, payload, fallbacks, tier, model, serving);
      var s := Expected(Streaming, requested, payload, fallbacks, tier, model, serving);
      var m := Expected(Multipart, requested, payload, fallbacks, tier, model, serving);
      && b.trace == s.trace == m.trace
      && b.servingId == s.servingId == m.servingId && b.modelId == s.modelId == m.modelId
      && b.status == m.status
      && (s.status == b.status <==>
            var answer := Answering(ServedBy(requested.upstream, payload, fallbacks, tier), requested.upstream,
                                    fallbacks);
            answer.Some? && Status(answer.value) < 400 ==> Status(answer.value) == 200)
  {
  }

  /** A 201 upstream: the buffered and multipart clients see 201, the streaming one 200. */
  lemma CreatedReadsAsOk()
    ensures
      var a := Candidate("a", Found("a", "model", {}), Response(201, "body"));
      var payload := Dict(map[]);
      && Expected<string>(Buffered, a, payload, [], "", "model", "a").status == 201
      && Expected<string>(Multipart, a, payload, [], "", "model", "a").status == 201
      && Expected<string>(Streaming, a, payload, [], "", "model", "a").status == 200
  {
    var a: Candidate<string> := Candidate("a", Found("a", "model", {}), Response(201, "body"));
    assert ServedBy(a.upstream, Dict(map[]), [], "") == Requested;
  }

  /** The model id of the service the request should be counted under. */
  function ModelOf<B>(server: Server, requested: Candidate<B>, fallbacks: seq<Candidate<B>>): string
    requires requested.resolution.Found?
    requires server.Fallback? ==> server.index < |fallbacks| && fallbacks[server.index].resolution.Found?
  {
    if server.Fallback? then fallbacks[server.index].resolution.modelId else requested.resolution.modelId
  }

  /**
   The label names the answering service, or the requested one when all fail, exactly when the
   request started under the requested service's label or some other service was prepared since. The
   buffered and streaming entry points start so; the multipart one does not.
   */
  lemma LabelNamesServerExactly<B>(mode: Mode, requested: Candidate<B>, payload: Payload, fallbacks: seq<Candidate<B>>,
                                   tier: string, model: string, serving: string)
    requires requested.resolution.Found?
    ensures
      var server := ServedBy(requested.upstream, payload, fallbacks, tier);
      Expected(mode, requested, payload, fallbacks, tier, model, serving).modelId
        == ModelOf(server, requested, fallbacks)
      <==> server.Requested? ==> model == requested.resolution.modelId
  {
  }

  /** A multipart request its own service answers keeps the label it came with, here none. */
  lemma MultipartStaysUnlabelled()
    ensures
      var a := Candidate("a", Found("a", "model", {}), Response(200, "body"));
      var payload := Dict(map[]);
      && ServedBy(a.upstream, payload, [], "") == Requested && ModelOf<string>(Requested, a, []) == "model"
      && Expected<string>(Multipart, a, payload, [], "", "", "").modelId == ""
  {
    var a: Candidate<string> := Candidate("a", Found("a", "model", {}), Response(200, "body"));
    LabelNamesServerExactly(Multipart, a, Dict(map[]), [], "", "", "");
  }
}
