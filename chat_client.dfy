/**
 * The chat client of the study assistant (app/AI/ai.js): the sliding window over the
 * conversation history, the retry loop against the single-slot gateway, the accumulation of
 * a streamed reply into the on-screen bubble, and the send handler with its anti-spam lock.
 *
 * The network is a parameter: `replies(k)` is what the k-th request of one send produces.
 * Waiting between retries (`RetryInterval` milliseconds) has no observable effect here
 * beyond the request count, and the DOM is reduced to the parts the code reads back or
 * that the user sees: the chat lines, the typing indicator, the queue notice, the streaming
 * bubble and the error banners.
 */
module ChatClient {
  import opened Wrappers
  import opened JsText
  import opened ThinkFilter

  datatype Role = System | User | Assistant

  datatype ChatMessage = ChatMessage(role: Role, content: string)

  /** Longest history kept after a user message is pushed: entry 0 plus the last `Recent`. */
  const HistoryLimit: nat := 21
  const Recent: nat := 20

  /** The retry budget: 60 requests, 3000 ms apart (about three minutes). */
  const MaxRetries: nat := 60
  const RetryInterval: nat := 3000

  const BusyStatus: int := 409

  const FetchFailure: string := "Failed to fetch"
  const OfflineMessage: string := "Cannot connect to AI server. The Host is offline."
  const QueueTimeoutMessage: string :=
    "Queue timeout — the server has been busy for too long. Please try again later."

  // ---------------------------------------------------------------------------
  // History window
  // ---------------------------------------------------------------------------

  /** The window applied after each user message: beyond 21 entries keep entry 0 and the last 20. */
  function Truncate(h: seq<ChatMessage>): seq<ChatMessage> {
    if |h| > HistoryLimit then [h[0]] + h[|h| - Recent..] else h
  }

  /**
   * The window never holds more than 21 entries, keeps entry 0 in place, and keeps the
   * newest entries in their order; nothing changes while the history fits.
   */
  lemma TruncateSpec(h: seq<ChatMessage>)
    ensures |Truncate(h)| == if |h| > HistoryLimit then HistoryLimit else |h|
    ensures h != [] ==> Truncate(h)[0] == h[0]
    ensures |h| <= HistoryLimit ==> Truncate(h) == h
    ensures |h| > HistoryLimit ==> Truncate(h)[1..] == h[|h| - Recent..]
    ensures h != [] ==> Truncate(h)[|Truncate(h)| - 1] == h[|h| - 1]
  {
    if |h| > HistoryLimit {
      assert Truncate(h)[1..] == h[|h| - Recent..];
    }
  }

  /** The history sent with a request: the old history, the user's message, then the window. */
  function Payload(history: seq<ChatMessage>, userMessage: string): seq<ChatMessage> {
    Truncate(history + [ChatMessage(User, userMessage)])
  }

  /**
   * Every request carries at most 21 messages ending in the user's new message; the first
   * entry (the system prompt once the conversation is initialised) is never dropped.
   */
  lemma PayloadSpec(history: seq<ChatMessage>, userMessage: string)
    ensures 1 <= |Payload(history, userMessage)| <= HistoryLimit
    ensures Payload(history, userMessage)[|Payload(history, userMessage)| - 1]
            == ChatMessage(User, userMessage)
    ensures history != [] ==> Payload(history, userMessage)[0] == history[0]
  {
    var h := history + [ChatMessage(User, userMessage)];
    TruncateSpec(h);
  }

  /**
   * After a successful turn the assistant's reply is appended behind the window, so the
   * stored history can hold 22 entries (though at most 21 are ever sent).
   */
  lemma HistoryAfterTurn(history: seq<ChatMessage>, userMessage: string, reply: string)
    ensures |Payload(history, userMessage) + [ChatMessage(Assistant, reply)]| <= HistoryLimit + 1
    ensures |history| >= HistoryLimit ==>
              |Payload(history, userMessage) + [ChatMessage(Assistant, reply)]| == HistoryLimit + 1
  {
    TruncateSpec(history + [ChatMessage(User, userMessage)]);
  }

  // ---------------------------------------------------------------------------
  // What one request produces, and what the send loop makes of it
  // ---------------------------------------------------------------------------

  /**
   * The result of one `fetch` to the gateway: either the fetch itself rejects (the browser
   * reports an unreachable host as "Failed to fetch"), or a response arrives with a status
   * and a body read as text pieces, whose reading may in the end fail.
   */
  datatype Reply =
    | FetchRejected(message: string)
    | Response(status: int, body: seq<string>, readError: Option<string>)

  predicate Busy(r: Reply) {
    r.Response? && r.status == BusyStatus
  }

  /** `response.ok`: a status in 200..299. */
  predicate IsOk(status: int) {
    200 <= status < 300
  }

  /** The catch block of `sendToAI`: a network failure becomes the offline message, anything else passes. */
  function Caught(message: string): (m: string)
    ensures message == FetchFailure ==> m == OfflineMessage
    ensures message != FetchFailure ==> m == message
  {
    if message == FetchFailure then OfflineMessage else message
  }

  /** The message thrown for a non-ok response: its body text, or "Server Error: <status>" when empty. */
  function ServerErrorText(status: int, text: string): (m: string)
    ensures text != "" ==> m == text
    ensures text == "" ==> m == "Server Error: " + IntToString(status)
  {
    if text != "" then text else "Server Error: " + IntToString(status)
  }

  /** What a request that is not answered with 409 makes of the turn. */
  function Settle(r: Reply): Result<string, string>
    requires !Busy(r)
  {
    match r
    case FetchRejected(m) => Err(Caught(m))
    case Response(status, body, readError) =>
      if readError.Some? then Err(Caught(readError.value))
      else if !IsOk(status) then Err(Caught(ServerErrorText(status, Concat(body))))
      else Ok(Format(Concat(body)))
  }

  /**
   * The three ways a settled request ends a turn: a network failure reported as offline, a
   * non-ok status reported with its text, or the streamed text stripped of its spans.
   */
  lemma SettleSpec(r: Reply)
    requires !Busy(r)
    ensures r.FetchRejected? && r.message == FetchFailure ==> Settle(r) == Err(OfflineMessage)
    ensures r.Response? && r.readError.None? && !IsOk(r.status) && Concat(r.body) == "" ==>
              Settle(r) == Err("Server Error: " + IntToString(r.status))
    ensures Settle(r).Ok? <==> r.Response? && IsOk(r.status) && r.readError.None?
    ensures Settle(r).Ok? ==> Settle(r).value == Trim(StripThink(Concat(r.body)))
    ensures Settle(r).Ok? ==> |Settle(r).value| <= |Concat(r.body)|
  {
    var server := "Server Error: ";
    assert server[0] != FetchFailure[0];
    if Settle(r).Ok? {
      var raw := Concat(r.body);
      StripShorter(raw);
      TrimIsSlice(StripThink(raw));
    }
  }

  /** How many of the requests from `from` on are answered with 409 before one is not (at most 60 in all). */
  function BusyRunFrom(replies: nat -> Reply, from: nat): nat
    requires from <= MaxRetries
    decreases MaxRetries - from
  {
    if from == MaxRetries || !Busy(replies(from)) then from else BusyRunFrom(replies, from + 1)
  }

  /** The number of leading 409 answers, capped at the retry budget. */
  function BusyRun(replies: nat -> Reply): nat {
    BusyRunFrom(replies, 0)
  }

  /** `BusyRun` is the length of the leading run of 409s, cut off at 60. */
  lemma {:induction false} BusyRunFromSpec(replies: nat -> Reply, from: nat)
    requires from <= MaxRetries
    requires forall i :: 0 <= i < from ==> Busy(replies(i))
    decreases MaxRetries - from
    ensures from <= BusyRunFrom(replies, from) <= MaxRetries
    ensures forall i :: 0 <= i < BusyRunFrom(replies, from) ==> Busy(replies(i))
    ensures BusyRunFrom(replies, from) < MaxRetries ==> !Busy(replies(BusyRunFrom(replies, from)))
  {
    if from < MaxRetries && Busy(replies(from)) {
      BusyRunFromSpec(replies, from + 1);
    }
  }

  /** The characterisation determines the run: any `k` with those three properties is `BusyRun`. */
  lemma BusyRunUnique(replies: nat -> Reply, k: nat)
    requires k <= MaxRetries
    requires forall i :: 0 <= i < k ==> Busy(replies(i))
    requires k < MaxRetries ==> !Busy(replies(k))
    ensures BusyRun(replies) == k
  {
    BusyRunFromSpec(replies, 0);
  }

  /** The outcome of one send: a timeout after 60 busy answers, otherwise what the first other answer gives. */
  function SendOutcome(replies: nat -> Reply): Result<string, string> {
    var b := BusyRun(replies);
    if b < MaxRetries then
      (BusyRunFromSpec(replies, 0);
       Settle(replies(b)))
    else Err(QueueTimeoutMessage)
  }

  /** Requests issued by one send: every busy answer is retried, nothing else is. */
  function Requests(replies: nat -> Reply): nat {
    if BusyRun(replies) < MaxRetries then BusyRun(replies) + 1 else MaxRetries
  }

  /** Times the queue notice is put up during one send: once, at the first 409. */
  function Notices(replies: nat -> Reply): nat {
    if BusyRun(replies) > 0 then 1 else 0
  }

  /** At most 60 requests and at most one queue notice per send; the notice appears iff a 409 came. */
  lemma SendBounds(replies: nat -> Reply)
    ensures 1 <= Requests(replies) <= MaxRetries
    ensures Notices(replies) <= 1
    ensures Notices(replies) == 1 <==> Busy(replies(0))
  {
    BusyRunFromSpec(replies, 0);
  }

  /** Sixty 409s in a row end the turn with the queue-timeout error after exactly 60 requests. */
  lemma AllBusyTimesOut(replies: nat -> Reply)
    requires forall i :: 0 <= i < MaxRetries ==> Busy(replies(i))
    ensures SendOutcome(replies) == Err(QueueTimeoutMessage)
    ensures Requests(replies) == MaxRetries && Notices(replies) == 1
  {
    BusyRunUnique(replies, MaxRetries);
  }

  /**
   * `k` answers of 409 and then another answer: `k + 1` requests, one notice if `k > 0`, and
   * the turn ends as that answer says.
   */
  lemma BusyThenSettled(replies: nat -> Reply, k: nat)
    requires k < MaxRetries
    requires forall i :: 0 <= i < k ==> Busy(replies(i))
    requires !Busy(replies(k))
    ensures Requests(replies) == k + 1
    ensures Notices(replies) == if k > 0 then 1 else 0
    ensures SendOutcome(replies) == Settle(replies(k))
  {
    BusyRunUnique(replies, k);
  }

  /** Only 409 is retried: if the first answer is anything else, exactly one request is made. */
  lemma NoRetryOtherwise(replies: nat -> Reply)
    requires !Busy(replies(0))
    ensures Requests(replies) == 1 && Notices(replies) == 0
    ensures SendOutcome(replies) == Settle(replies(0))
  {
    BusyRunUnique(replies, 0);
  }

  // ---------------------------------------------------------------------------
  // The chat page
  // ---------------------------------------------------------------------------

  /** A finished line of the chat: the user's text, or the formatted text of a finished reply. */
  datatype Line = UserLine(text: string) | AssistantLine(text: string)

  /** The bubble being streamed into: the raw text received so far and what is shown of it. */
  datatype Bubble = Bubble(raw: string, shown: string)

  class ChatSession {
    var history: seq<ChatMessage>
    var isGenerating: bool
    var draft: string
    var lines: seq<Line>
    var typing: bool
    var queueNotice: bool
    var streaming: Option<Bubble>
    var banners: seq<string>

    /** `initConversation`: the history starts with the system prompt built from the tasks. */
    constructor (systemPrompt: string)
      ensures history == [ChatMessage(System, systemPrompt)]
      ensures !isGenerating && draft == "" && lines == [] && banners == [] && Quiet()
    {
      history := [ChatMessage(System, systemPrompt)];
      isGenerating := false;
      draft := "";
      lines := [];
      typing := false;
      queueNotice := false;
      streaming := None;
      banners := [];
    }

    /** Between turns: no bubble, no typing indicator and no queue notice on the page. */
    ghost predicate Quiet()
      reads this
    {
      streaming.None? && !typing && !queueNotice
    }

    /** The bubble shows the formatted form of everything received so far. */
    ghost predicate BubbleCurrent()
      reads this
    {
      streaming.Some? ==> streaming.value.shown == Format(streaming.value.raw)
    }

    /** `lockUI`: set the generating flag (the disabled controls are not modelled). */
    method LockUI()
      modifies this`isGenerating
      ensures isGenerating
    {
      isGenerating := true;
    }

    /** `unlockUI`: clear the generating flag. */
    method UnlockUI()
      modifies this`isGenerating
      ensures !isGenerating
    {
      isGenerating := false;
    }

    /** `appendToStreamingBubble`: add a piece to the raw text and re-render all of it. */
    method AppendToStreamingBubble(piece: string)
      modifies this`streaming
      ensures old(streaming).None? ==> streaming == None
      ensures old(streaming).Some? ==>
                streaming == Some(Bubble(old(streaming).value.raw + piece,
                                         Format(old(streaming).value.raw + piece)))
      ensures BubbleCurrent()
    {
      if streaming.Some? {
        var raw := streaming.value.raw + piece;
        streaming := Some(Bubble(raw, Format(raw)));
      }
    }

    /**
     * The streaming read: every piece is added to the full response and to the bubble, in
     * order. The bubble ends holding the concatenation and its formatted form.
     */
    method ReadStream(body: seq<string>) returns (full: string)
      requires streaming == Some(Bubble("", ""))
      modifies this`streaming
      ensures full == Concat(body)
      ensures streaming == Some(Bubble(full, Format(full)))
      ensures history == old(history) && lines == old(lines) && typing == old(typing)
    {
      full := "";
      var i := 0;
      FormatEmpty();
      while i < |body|
        invariant 0 <= i <= |body|
        invariant full == Concat(body[..i])
        invariant streaming == Some(Bubble(full, Format(full)))
      {
        ConcatAppend(body[..i], body[i]);
        assert body[..i + 1] == body[..i] + [body[i]];
        full := full + body[i];
        AppendToStreamingBubble(body[i]);
        i := i + 1;
      }
      assert body[..i] == body;
    }

    /**
     * The part of one loop pass of `sendToAI` after the 409 test: a rejected fetch or a
     * non-ok status ends the turn with an error; an ok response is streamed into a new
     * bubble, which is then finished as a chat line and stored, cleaned, in the history.
     */
    method Receive(reply: Reply) returns (outcome: Result<string, string>)
      requires !Busy(reply) && streaming.None?
      modifies this`history, this`typing, this`streaming, this`lines
      ensures outcome == Settle(reply)
      ensures outcome.Ok? ==>
                history == old(history) + [ChatMessage(Assistant, outcome.value)]
                && lines == old(lines) + [AssistantLine(outcome.value)] && streaming.None? && !typing
      ensures outcome.Err? ==> history == old(history) && lines == old(lines)
      ensures reply.Response? && IsOk(reply.status) ==> !typing
      ensures !(reply.Response? && IsOk(reply.status)) ==> typing == old(typing) && streaming.None?
      ensures BubbleCurrent()
    {
      match reply
      case FetchRejected(m) =>
        outcome := Err(Caught(m));
      case Response(status, body, readError) =>
        if !IsOk(status) {
          outcome := Err(Caught(if readError.Some? then readError.value
                                else ServerErrorText(status, Concat(body))));
          return;
        }
        typing := false;
        streaming := Some(Bubble("", ""));
        var full := ReadStream(body);
        if readError.Some? {
          outcome := Err(Caught(readError.value));
          return;
        }
        var shown := streaming.value.shown;
        streaming := None;
        lines := lines + [AssistantLine(shown)];
        var clean := Format(full);
        history := history + [ChatMessage(Assistant, clean)];
        outcome := Ok(clean);
    }

    /**
     * `sendToAI`: push the user's message, apply the window, then request until the gateway
     * accepts or 60 requests were answered with 409. The queue notice goes up at the first
     * 409 (replacing the typing indicator) and comes down when another answer arrives.
     */
    method SendToAI(userMessage: string, replies: nat -> Reply)
      returns (outcome: Result<string, string>, requests: nat, notices: nat)
      requires streaming.None? && !queueNotice
      modifies this`history, this`typing, this`queueNotice, this`streaming, this`lines
      ensures outcome == SendOutcome(replies)
      ensures requests == Requests(replies) && notices == Notices(replies)
      ensures outcome.Ok? ==>
                history == Payload(old(history), userMessage) + [ChatMessage(Assistant, outcome.value)]
                && lines == old(lines) + [AssistantLine(outcome.value)]
                && streaming.None? && !typing && !queueNotice
      ensures outcome.Err? ==> history == Payload(old(history), userMessage) && lines == old(lines)
      ensures BusyRun(replies) > 0 ==> !typing
      ensures BusyRun(replies) < MaxRetries ==> !queueNotice
      ensures BusyRun(replies) == MaxRetries ==> queueNotice && streaming.None?
      ensures BubbleCurrent()
    {
      history := history + [ChatMessage(User, userMessage)];
      if |history| > HistoryLimit {
        history := [history[0]] + history[|history| - Recent..];
      }
      var retryCount;
      retryCount, requests, notices := AwaitTurn(replies);
      if retryCount == MaxRetries {
        outcome := Err(QueueTimeoutMessage);
        return;
      }
      // The page removes the notice here only for an answered request; after a rejected fetch
      // the `catch` of `handleSend` removes it instead, which `FinishSend` leaves as it is.
      if retryCount > 0 {
        queueNotice := false;
      }
      outcome := Receive(replies(retryCount));
    }

    /**
     * The retry loop of `sendToAI`: request until an answer other than 409 arrives or 60
     * requests were answered with 409; at the first 409 the typing indicator gives way to
     * the queue notice. Returns the number of 409s.
     */
    method AwaitTurn(replies: nat -> Reply) returns (retryCount: nat, requests: nat, notices: nat)
      modifies this`typing, this`queueNotice
      ensures retryCount == BusyRun(replies) <= MaxRetries
      ensures retryCount < MaxRetries ==> !Busy(replies(retryCount))
      ensures requests == Requests(replies) && notices == Notices(replies)
      ensures retryCount > 0 ==> queueNotice && !typing
      ensures retryCount == 0 ==> queueNotice == old(queueNotice) && typing == old(typing)
    {
      retryCount := 0;
      var queueShown := false;
      requests, notices := 0, 0;
      while retryCount < MaxRetries
        invariant 0 <= retryCount <= MaxRetries
        invariant forall i :: 0 <= i < retryCount ==> Busy(replies(i))
        invariant requests == retryCount
        invariant queueShown <==> retryCount > 0
        invariant notices == if retryCount > 0 then 1 else 0
        invariant retryCount > 0 ==> queueNotice && !typing
        invariant retryCount == 0 ==> queueNotice == old(queueNotice) && typing == old(typing)
      {
        requests := requests + 1;
        if !Busy(replies(retryCount)) {
          break;
        }
        if !queueShown {
          typing := false;
          queueNotice := true;
          queueShown := true;
          notices := notices + 1;
        }
        retryCount := retryCount + 1;
      }
      BusyRunUnique(replies, retryCount);
    }

    /**
     * The synchronous start of `handleSend`, up to the first `await`: nothing happens for an
     * all-blank draft or while a reply is being generated; otherwise the draft is cleared,
     * the page is locked, and the user's line and the typing indicator appear.
     */
    method BeginSend() returns (text: Option<string>)
      modifies this`draft, this`isGenerating, this`lines, this`typing
      ensures Trim(old(draft)) == "" || old(isGenerating) ==>
                text == None && draft == old(draft) && isGenerating == old(isGenerating)
                && lines == old(lines) && typing == old(typing)
      ensures Trim(old(draft)) != "" && !old(isGenerating) ==>
                text == Some(Trim(old(draft))) && draft == "" && isGenerating
                && lines == old(lines) + [UserLine(Trim(old(draft)))] && typing
    {
      var t := Trim(draft);
      if t == "" || isGenerating {
        return None;
      }
      draft := "";
      LockUI();
      lines := lines + [UserLine(t)];
      typing := true;
      text := Some(t);
    }

    /**
     * The rest of `handleSend`: send the text; on failure tear down the typing indicator,
     * the queue notice and any partial bubble and show the error; unlock in every case.
     */
    method FinishSend(text: string, replies: nat -> Reply) returns (outcome: Result<string, string>)
      requires streaming.None? && !queueNotice
      modifies this`history, this`typing, this`queueNotice, this`streaming, this`lines,
               this`banners, this`isGenerating
      ensures outcome == SendOutcome(replies)
      ensures !isGenerating && Quiet()
      ensures outcome.Ok? ==>
                history == Payload(old(history), text) + [ChatMessage(Assistant, outcome.value)]
                && lines == old(lines) + [AssistantLine(outcome.value)] && banners == old(banners)
      ensures outcome.Err? ==>
                history == Payload(old(history), text) && lines == old(lines)
                && banners == old(banners) + [outcome.error]
    {
      var requests, notices;
      outcome, requests, notices := SendToAI(text, replies);
      if outcome.Err? {
        typing := false;
        queueNotice := false;
        streaming := None;
        banners := banners + [outcome.error];
      }
      UnlockUI();
    }

    /**
     * `handleSend` as one step: begin, and when it started, finish. A send leaves the user's
     * line on the page followed by the reply's line, or by nothing and an error banner; the
     * history gains the trimmed draft (under the window) and, on success, the reply.
     */
    method HandleSend(replies: nat -> Reply) returns (outcome: Option<Result<string, string>>)
      requires !isGenerating ==> Quiet()
      modifies this
      ensures Trim(old(draft)) == "" || old(isGenerating) ==> outcome == None && unchanged(this)
      ensures Trim(old(draft)) != "" && !old(isGenerating) ==>
                var t := Trim(old(draft));
                var r := SendOutcome(replies);
                && outcome == Some(r) && !isGenerating && draft == "" && Quiet()
                && (r.Ok? ==>
                      history == Payload(old(history), t) + [ChatMessage(Assistant, r.value)]
                      && lines == old(lines) + [UserLine(t), AssistantLine(r.value)]
                      && banners == old(banners))
                && (r.Err? ==>
                      history == Payload(old(history), t)
                      && lines == old(lines) + [UserLine(t)]
                      && banners == old(banners) + [r.error])
      ensures old(Quiet()) ==> Quiet()
    {
      var text := BeginSend();
      if text.None? {
        return None;
      }
      var r := FinishSend(text.value, replies);
      outcome := Some(r);
    }

    /**
     * A quick-action button: ignored while generating or when it carries no prompt;
     * otherwise its prompt becomes the draft and is sent, so that an all-blank prompt is
     * left standing in the input and nothing else happens.
     */
    method QuickAction(prompt: string, replies: nat -> Reply) returns (outcome: Option<Result<string, string>>)
      requires !isGenerating ==> Quiet()
      modifies this
      ensures old(isGenerating) || prompt == "" ==> outcome == None && unchanged(this)
      ensures !old(isGenerating) && prompt != "" && Trim(prompt) == "" ==>
                outcome == None && draft == prompt && history == old(history)
                && lines == old(lines) && banners == old(banners) && !isGenerating && Quiet()
      ensures !old(isGenerating) && Trim(prompt) != "" ==>
                var r := SendOutcome(replies);
                && outcome == Some(r) && !isGenerating && draft == "" && Quiet()
                && (r.Ok? ==>
                      history == Payload(old(history), Trim(prompt)) + [ChatMessage(Assistant, r.value)]
                      && lines == old(lines) + [UserLine(Trim(prompt)), AssistantLine(r.value)]
                      && banners == old(banners))
                && (r.Err? ==>
                      history == Payload(old(history), Trim(prompt))
                      && lines == old(lines) + [UserLine(Trim(prompt))]
                      && banners == old(banners) + [r.error])
      ensures old(Quiet()) ==> Quiet()
    {
      if isGenerating || prompt == "" {
        return None;
      }
      draft := prompt;
      outcome := HandleSend(replies);
    }
  }

  /** An empty bubble shows nothing: the text of a fresh bubble is its formatted empty accumulator. */
  lemma FormatEmpty()
    ensures Format("") == ""
  {
    assert StripThink("") == "";
  }

  /**
   * The line shown for a finished reply is the text stored in the history: both are the
   * cleaned concatenation of the streamed pieces, however the text was cut into pieces.
   */
  lemma ShownEqualsStored(replies: nat -> Reply)
    requires SendOutcome(replies).Ok?
    ensures var r := replies(BusyRun(replies));
            r.Response? && SendOutcome(replies).value == Format(Concat(r.body))
  {
    BusyRunFromSpec(replies, 0);
    SettleSpec(replies(BusyRun(replies)));
  }
}
