/**
 * The AI gateway (server.js): a single-slot admission gate in front of the local language
 * model. A request that arrives while another is being generated is turned away with 409;
 * a request without a message array is refused with 400; otherwise the slot is taken, the
 * messages are forwarded upstream, the upstream outcome becomes the response, and the slot
 * is released on every exit path. The health route reports the slot and, when the upstream
 * answers, its model names.
 *
 * The upstream call is a parameter (`Upstream`): what the model server answered, or how the
 * call failed. Logging, CORS and the JSON body limit are not modelled.
 */
module Gateway {
  import opened Wrappers
  import opened JsText
  import ChatClient

  const BusyMessage: string := "🤖 StudyBot is currently helping another user. Please wait a moment..."
  const InvalidRequestMessage: string := "Invalid request: messages array required"
  const NotRunningMessage: string := "Ollama is not running. Please start it with: ollama serve"
  const ConnectionRefused: string := "ECONNREFUSED"

  /** The `messages` field of a request body, as the handler sees it. */
  datatype RequestBody =
    | Missing
    | NotAnArray
    | MessageArray(messages: seq<ChatClient.ChatMessage>)

  /**
   * What the forwarded call produced: a parsed reply (whose `message.content`, `model` and
   * `total_duration` may each be absent), a non-ok status with its body text, a rejected
   * fetch (with the `cause.code` of the error, if any), or a body that is not valid JSON.
   */
  datatype Upstream =
    | Replied(content: Option<string>, model: Option<string>, totalDuration: Option<int>)
    | NotOk(status: int, text: string)
    | FetchFailed(causeCode: Option<string>, message: string)
    | BadJson(message: string)

  datatype Payload =
    | BusyPayload(message: string)
    | ErrorPayload(error: string)
    | ChatPayload(content: string, model: Option<string>, totalDuration: Option<int>)
    | HealthPayload(ollamaConnected: bool, models: Option<seq<string>>, busy: bool)

  datatype HttpResponse = HttpResponse(status: int, payload: Payload)

  /** The message of the error thrown for a non-ok upstream status. */
  function UpstreamErrorMessage(status: int, text: string): string {
    "Ollama error " + IntToString(status) + ": " + text
  }

  /** The response for an upstream outcome: 200 with the reply, 503 when refused, 500 otherwise. */
  function Respond(u: Upstream): HttpResponse {
    match u
    case Replied(content, model, duration) =>
      HttpResponse(200, ChatPayload(if content.Some? then content.value else "", model, duration))
    case NotOk(status, text) => HttpResponse(500, ErrorPayload(UpstreamErrorMessage(status, text)))
    case FetchFailed(code, message) =>
      if code == Some(ConnectionRefused) then HttpResponse(503, ErrorPayload(NotRunningMessage))
      else HttpResponse(500, ErrorPayload(message))
    case BadJson(message) => HttpResponse(500, ErrorPayload(message))
  }

  /**
   * Only a reply is a success; a refused connection is the one failure given 503 and the
   * fixed hint; every other failure is 500 with the error's message; a missing or empty
   * content is sent as the empty string.
   */
  lemma RespondSpec(u: Upstream)
    ensures Respond(u).status == 200 <==> u.Replied?
    ensures Respond(u).status == 503 <==> u.FetchFailed? && u.causeCode == Some(ConnectionRefused)
    ensures Respond(u).status in {200, 500, 503}
    ensures Respond(u).status != 200 ==> Respond(u).payload.ErrorPayload?
    ensures u.Replied? && (u.content == None || u.content == Some("")) ==>
              Respond(u).payload.content == ""
    ensures u.NotOk? ==> Respond(u).payload.error == UpstreamErrorMessage(u.status, u.text)
    ensures Respond(u).status != 409
  {
  }

  /**
   * The synchronous part of the chat handler: a busy slot answers 409 before the body is
   * looked at; a missing or non-array `messages` answers 400 and leaves the slot free;
   * otherwise the slot is taken and there is no response yet (`None`).
   */
  function Admit(busy: bool, body: RequestBody): (bool, Option<HttpResponse>) {
    if busy then (true, Some(HttpResponse(409, BusyPayload(BusyMessage))))
    else if !body.MessageArray? then (false, Some(HttpResponse(400, ErrorPayload(InvalidRequestMessage))))
    else (true, None)
  }

  /**
   * The gate decides on the slot alone, then on the body: a request is forwarded exactly
   * when the slot was free and the body holds a message array, and then the slot is taken;
   * a refused request leaves the slot as it was.
   */
  lemma AdmitSpec(busy: bool, body: RequestBody)
    ensures Admit(busy, body).1.None? <==> !busy && body.MessageArray?
    ensures Admit(busy, body).1.None? ==> Admit(busy, body).0
    ensures Admit(busy, body).1.Some? ==> Admit(busy, body).0 == busy
    ensures busy ==> Admit(busy, body).1 == Some(HttpResponse(409, BusyPayload(BusyMessage)))
    ensures !busy && !body.MessageArray? ==> Admit(busy, body).1.value.status == 400
  {
  }

  class ChatGateway {
    var isProcessing: bool

    constructor ()
      ensures !isProcessing
    {
      isProcessing := false;
    }

    /** The chat handler up to the upstream `await`: the gate. */
    method Admission(body: RequestBody) returns (response: Option<HttpResponse>)
      modifies this
      ensures (isProcessing, response) == Admit(old(isProcessing), body)
    {
      if isProcessing {
        return Some(HttpResponse(409, BusyPayload(BusyMessage)));
      }
      if !body.MessageArray? {
        return Some(HttpResponse(400, ErrorPayload(InvalidRequestMessage)));
      }
      isProcessing := true;
      response := None;
    }

    /** The chat handler after the upstream `await`: respond, and release the slot in `finally`. */
    method Completion(u: Upstream) returns (response: HttpResponse)
      requires isProcessing
      modifies this
      ensures !isProcessing && response == Respond(u)
    {
      response := Respond(u);
      isProcessing := false;
    }

    /** The whole chat handler when nothing else runs during its `await`. */
    method Chat(body: RequestBody, u: Upstream) returns (response: HttpResponse)
      modifies this
      ensures !old(isProcessing) && body.MessageArray? ==> response == Respond(u) && !isProcessing
      ensures old(isProcessing) ==> response.status == 409 && isProcessing
      ensures !old(isProcessing) && !body.MessageArray? ==> response.status == 400 && !isProcessing
    {
      var early := Admission(body);
      if early.Some? {
        return early.value;
      }
      response := Completion(u);
    }

    /**
     * The health route: always "ok" for the gateway itself, the slot as it is, and the model
     * names only when the upstream answered (`tags` is `None` when that call failed; a reply
     * without a model list gives an empty list).
     */
    method Health(tags: Option<Option<seq<string>>>) returns (response: HttpResponse)
      ensures response.status == 200 && response.payload.HealthPayload?
      ensures response.payload.busy == isProcessing
      ensures response.payload.ollamaConnected <==> tags.Some?
      ensures response.payload.models.Some? <==> tags.Some?
      ensures tags.Some? ==> response.payload.models.value == tags.value.GetOr([])
    {
      if tags.None? {
        return HttpResponse(200, HealthPayload(false, None, isProcessing));
      }
      var models := if tags.value.Some? then tags.value.value else [];
      response := HttpResponse(200, HealthPayload(true, Some(models), isProcessing));
    }
  }

  // ---------------------------------------------------------------------------
  // The gate over a sequence of events
  // ---------------------------------------------------------------------------

  /** A request arriving, or the in-flight generation finishing with an upstream outcome. */
  datatype Event = Arrive(body: RequestBody) | Finish(outcome: Upstream)

  /** One event: arrivals go through the gate; a finish answers the in-flight request and frees the slot. */
  function Step(busy: bool, e: Event): (bool, Option<HttpResponse>) {
    match e
    case Arrive(body) => Admit(busy, body)
    case Finish(u) => if busy then (false, Some(Respond(u))) else (false, None)
  }

  /** The slot after a sequence of events, starting from `busy`. */
  function BusyAfter(busy: bool, events: seq<Event>): bool
    decreases |events|
  {
    if events == [] then busy else BusyAfter(Step(busy, events[0]).0, events[1..])
  }

  /** The responses produced by a sequence of events, in order. */
  function Responses(busy: bool, events: seq<Event>): seq<HttpResponse>
    decreases |events|
  {
    if events == [] then []
    else
      var (b, r) := Step(busy, events[0]);
      (if r.Some? then [r.value] else []) + Responses(b, events[1..])
  }

  /** Requests forwarded upstream (admitted) by a sequence of events. */
  function Admitted(busy: bool, events: seq<Event>): nat
    decreases |events|
  {
    if events == [] then 0
    else
      var e := events[0];
      (if e.Arrive? && Step(busy, e).1.None? then 1 else 0) + Admitted(Step(busy, e).0, events[1..])
  }

  /** Generations finished (a finish that found the slot taken) in a sequence of events. */
  function Finished(busy: bool, events: seq<Event>): nat
    decreases |events|
  {
    if events == [] then 0
    else
      var e := events[0];
      (if e.Finish? && busy then 1 else 0) + Finished(Step(busy, e).0, events[1..])
  }

  /**
   * At most one generation is ever in flight: from a free slot, the number admitted minus
   * the number finished is 1 exactly while the slot is taken and 0 otherwise.
   */
  lemma {:induction false} OneInFlight(busy: bool, events: seq<Event>)
    decreases |events|
    ensures Admitted(busy, events) + (if busy then 1 else 0)
            == Finished(busy, events) + (if BusyAfter(busy, events) then 1 else 0)
  {
    if events != [] {
      OneInFlight(Step(busy, events[0]).0, events[1..]);
    }
  }

  /** While a generation is in flight, every arriving request is answered 409 and forwards nothing. */
  lemma {:induction false} ArrivalsWhileBusy(events: seq<Event>)
    requires forall i :: 0 <= i < |events| ==> events[i].Arrive?
    decreases |events|
    ensures BusyAfter(true, events)
    ensures Admitted(true, events) == 0
    ensures |Responses(true, events)| == |events|
    ensures forall i :: 0 <= i < |events| ==> Responses(true, events)[i].status == 409
  {
    if events != [] {
      ArrivalsWhileBusy(events[1..]);
    }
  }

  /**
   * N valid requests arriving at a free gateway with no generation finishing in between:
   * exactly one is forwarded and the other N - 1 are answered 409.
   */
  lemma ExactlyOneAdmitted(events: seq<Event>)
    requires |events| >= 1
    requires forall i :: 0 <= i < |events| ==> events[i].Arrive? && events[i].body.MessageArray?
    ensures Admitted(false, events) == 1
    ensures |Responses(false, events)| == |events| - 1
    ensures forall i :: 0 <= i < |events| - 1 ==> Responses(false, events)[i].status == 409
  {
    ArrivalsWhileBusy(events[1..]);
  }

  /**
   * The slot is released on every exit path: whatever the upstream outcome, after the
   * finish the slot is free and the next valid request is forwarded, not answered 409.
   */
  lemma ReleasedOnEveryPath(u: Upstream, messages: seq<ChatClient.ChatMessage>)
    ensures !Step(true, Finish(u)).0
    ensures Step(true, Finish(u)).1 == Some(Respond(u))
    ensures Step(Step(true, Finish(u)).0, Arrive(MessageArray(messages))) == (true, None)
  {
  }

  /** A refused request (400) does not take the slot: the next valid request is forwarded. */
  lemma InvalidDoesNotLock(body: RequestBody, messages: seq<ChatClient.ChatMessage>)
    requires !body.MessageArray?
    ensures Step(false, Arrive(body)) == (false, Some(HttpResponse(400, ErrorPayload(InvalidRequestMessage))))
    ensures Step(Step(false, Arrive(body)).0, Arrive(MessageArray(messages))) == (true, None)
  {
  }
}
