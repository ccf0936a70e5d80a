/**
 * The chat client's transcript and session state (public/js/script.js): the
 * in-memory `chatHistory`, the single-flight flag `isProcessing`, the copy of
 * the history kept in local storage, and the messages shown in the chat box.
 */
module Session {
  import opened Wrappers
  import opened Http
  import opened Strings
  import opened Segmentation

  /** A role as stored; anything other than "user" or "assistant" is kept but never shown. */
  datatype Role = User | Assistant | OtherRole(name: string)

  datatype Turn = Turn(role: Role, content: string)

  /**
   * One entry of the chat box: a user message, or one segment of an assistant
   * reply. The timed welcome messages are not entries of this kind.
   */
  datatype Display = UserMessage(text: string) | BotMessage(segment: Segment)

  /** The body posted to /api/chat: the selected model, the whole history, a fixed temperature. */
  datatype ChatRequest = ChatRequest(model: string, messages: seq<Turn>, temperature: real)

  const Temperature: real := 0.7

  /** What `sendToAPI` returns after any failure. */
  const RequestFailed: string := "Error processing request"

  /** `data.choices[i]`: a message whose content may be absent, or no message at all. */
  datatype Choice = Message(content: Option<string>) | NoMessage

  /**
   * How the fetch of /api/chat settles: a response with its status and, when the
   * body parsed, its `choices` array (None when missing or not usable as an
   * array); or an exception from `fetch` or `response.json()`.
   */
  datatype ApiOutcome =
    | Answered(status: int, choices: Option<seq<Choice>>)
    | Failed(message: string)

  /** The exchange produced a first choice carrying a message. */
  predicate Succeeded(outcome: ApiOutcome) {
    && outcome.Answered? && IsOk(outcome.status)
    && outcome.choices.Some? && outcome.choices.value != []
    && outcome.choices.value[0].Message?
  }

  /**
   * What `sendToAPI` resolves to: the first choice's content (None standing for
   * `undefined`/`null`), or the failure text, which it returns instead of throwing.
   */
  function SendToApi(outcome: ApiOutcome): (reply: Option<string>)
    ensures Succeeded(outcome) ==> reply == outcome.choices.value[0].content
    ensures !Succeeded(outcome) ==> reply == Some(RequestFailed)
  {
    match outcome
    case Failed(_) => Some(RequestFailed)
    case Answered(status, choices) =>
      if !IsOk(status) then Some(RequestFailed)
      else if choices.None? || choices.value == [] then Some(RequestFailed)
      else match choices.value[0]
        case NoMessage => Some(RequestFailed)
        case Message(content) => content
  }

  /** `if (response)`: a reply is recorded only when it is a non-empty string. */
  predicate Truthy(reply: Option<string>) {
    reply.Some? && reply.value != []
  }

  /**
   * A reply is recorded exactly when the exchange failed (as the failure text)
   * or when the first choice's content is a non-empty string.
   */
  lemma RecordedReply(outcome: ApiOutcome)
    ensures Truthy(SendToApi(outcome))
        <==> !Succeeded(outcome) || Truthy(outcome.choices.value[0].content)
    ensures Truthy(SendToApi(outcome)) && !Succeeded(outcome) ==> SendToApi(outcome).value == RequestFailed
  {
  }

  function BotMessages(segs: seq<Segment>): (r: seq<Display>)
    ensures |r| == |segs|
  {
    seq(|segs|, i requires 0 <= i < |segs| => BotMessage(segs[i]))
  }

  /** What showing one stored turn adds to the chat box. */
  function Rendered(turn: Turn): seq<Display> {
    match turn.role
    case User => [UserMessage(turn.content)]
    case Assistant => BotMessages(ProcessResponse(turn.content))
    case OtherRole(_) => []
  }

  /** Each element mapped to a sequence, the results concatenated in order. */
  function FlatMap<T, U>(xs: seq<T>, f: T -> seq<U>): seq<U>
    decreases |xs|
  {
    if xs == [] then [] else FlatMap(xs[..|xs| - 1], f) + f(xs[|xs| - 1])
  }

  lemma FlatMapSnoc<T, U>(xs: seq<T>, x: T, f: T -> seq<U>)
    ensures FlatMap(xs + [x], f) == FlatMap(xs, f) + f(x)
  {
    assert (xs + [x])[..|xs|] == xs;
  }

  lemma {:induction false} FlatMapAppend<T, U>(a: seq<T>, b: seq<T>, f: T -> seq<U>)
    ensures FlatMap(a + b, f) == FlatMap(a, f) + FlatMap(b, f)
    decreases |b|
  {
    if b == [] {
      assert a + b == a;
    } else {
      var c := b[..|b| - 1];
      var x := b[|b| - 1];
      assert a + b == (a + c) + [x];
      assert b == c + [x];
      FlatMapSnoc(a + c, x, f);
      FlatMapSnoc(c, x, f);
      FlatMapAppend(a, c, f);
    }
  }

  /** The chat box rebuilt from a history, turn by turn in order. */
  function Replay(h: seq<Turn>): seq<Display> {
    FlatMap(h, Rendered)
  }

  lemma ReplaySnoc(h: seq<Turn>, t: Turn)
    ensures Replay(h + [t]) == Replay(h) + Rendered(t)
  {
    FlatMapSnoc(h, t, Rendered);
  }

  /** Replaying a concatenation is replaying each piece in turn. */
  lemma ReplayAppend(a: seq<Turn>, b: seq<Turn>)
    ensures Replay(a + b) == Replay(a) + Replay(b)
  {
    FlatMapAppend(a, b, Rendered);
  }

  /** Turns of any other role leave no trace in the chat box. */
  lemma ReplayIgnoresOtherRoles(a: seq<Turn>, name: string, content: string, b: seq<Turn>)
    ensures Replay(a + [Turn(OtherRole(name), content)] + b) == Replay(a + b)
  {
    var t := Turn(OtherRole(name), content);
    ReplayAppend(a + [t], b);
    ReplaySnoc(a, t);
    ReplayAppend(a, b);
  }

  /**
   * The `forEach` of `loadChatHistory`: user turns as plain messages, assistant
   * turns through segmentation, other roles skipped.
   */
  method ReplayTranscript(h: seq<Turn>) returns (shown: seq<Display>)
    ensures shown == Replay(h)
  {
    shown := [];
    var i := 0;
    while i < |h|
      invariant 0 <= i <= |h|
      invariant shown == Replay(h[..i])
    {
      var turn := h[i];
      if turn.role == User {
        shown := shown + [UserMessage(turn.content)];
      } else if turn.role == Assistant {
        shown := shown + BotMessages(ProcessResponse(turn.content));
      }
      assert h[..i + 1] == h[..i] + [turn];
      ReplaySnoc(h[..i], turn);
      i := i + 1;
    }
    assert h[..|h|] == h;
  }

  /** The chat client's module state with the storage entry it owns. */
  class ChatClient {
    var history: seq<Turn>
    var processing: bool
    var stored: Option<seq<Turn>>
    /** The chat box apart from the welcome messages. */
    var view: seq<Display>

    /**
     * The stored copy is always a prefix of the live history, and the chat box,
     * apart from the welcome messages, shows exactly the replay of the live history.
     */
    ghost predicate Valid()
      reads this
    {
      && (stored.Some? ==> stored.value <= history)
      && view == Replay(history)
    }

    /** Page load (`initializeApp`): fresh module state, then `loadChatHistory`. */
    constructor (saved: Option<seq<Turn>>)
      ensures Valid()
      ensures !processing && stored == saved
      ensures history == if saved.Some? then saved.value else []
    {
      history := [];
      processing := false;
      stored := saved;
      view := [];
      new;
      LoadChatHistory();
    }

    /** `loadChatHistory`: restore the history from storage and show it. */
    method LoadChatHistory()
      modifies this
      ensures processing == old(processing) && stored == old(stored)
      ensures old(stored).Some? ==> history == old(stored).value && view == old(view) + Replay(history)
      ensures old(stored).None? ==> history == old(history) && view == old(view)
      ensures old(history) == [] && old(view) == [] ==> Valid()
    {
      if stored.Some? {
        history := stored.value;
        var shown := ReplayTranscript(history);
        view := view + shown;
      }
    }

    /** `saveChatHistory`. */
    method SaveChatHistory()
      requires Valid()
      modifies this
      ensures Valid()
      ensures stored == Some(history)
      ensures history == old(history) && processing == old(processing) && view == old(view)
    {
      stored := Some(history);
    }

    /** `clearChat`: empty chat box, empty history, storage entry removed. */
    method ClearChat()
      requires Valid()
      modifies this
      ensures Valid()
      ensures history == [] && stored == None && view == []
      ensures processing == old(processing)
    {
      view := [];
      history := [];
      stored := None;
    }

    /**
     * `handleSendMessage` up to its `await`: ignored while a send is in flight or
     * when the trimmed input is empty; otherwise the user turn is appended and
     * shown, and the request carries the whole history including it.
     */
    method Submit(input: string, model: string) returns (request: Option<ChatRequest>)
      requires Valid()
      modifies this
      ensures Valid()
      ensures stored == old(stored)
      ensures old(processing) || Trim(input) == [] ==>
        && request == None
        && history == old(history) && processing == old(processing) && view == old(view)
      ensures !old(processing) && Trim(input) != [] ==>
        && processing
        && history == old(history) + [Turn(User, Trim(input))]
        && view == old(view) + [UserMessage(Trim(input))]
        && request == Some(ChatRequest(model, history, Temperature))
    {
      if processing {
        return None;
      }
      var message := Trim(input);
      if message == [] {
        return None;
      }
      processing := true;
      ReplaySnoc(history, Turn(User, message));
      history := history + [Turn(User, message)];
      view := view + [UserMessage(message)];
      request := Some(ChatRequest(model, history, Temperature));
    }

    /**
     * `handleSendMessage` after its `await`: a truthy reply (the failure text
     * included) is appended, shown through segmentation and the whole history
     * saved; an empty or absent reply changes nothing; the flag is cleared.
     */
    method Complete(outcome: ApiOutcome)
      requires Valid() && processing
      modifies this
      ensures Valid() && !processing
      ensures var reply := SendToApi(outcome);
        if Truthy(reply) then
          && history == old(history) + [Turn(Assistant, reply.value)]
          && view == old(view) + BotMessages(ProcessResponse(reply.value))
          && stored == Some(history)
        else
          history == old(history) && view == old(view) && stored == old(stored)
    {
      var reply := SendToApi(outcome);
      if Truthy(reply) {
        ReplaySnoc(history, Turn(Assistant, reply.value));
        history := history + [Turn(Assistant, reply.value)];
        view := view + BotMessages(ProcessResponse(reply.value));
        SaveChatHistory();
      }
      processing := false;
    }

    /** `handleSendMessage` run to completion against one outcome of the request. */
    method HandleSendMessage(input: string, model: string, outcome: ApiOutcome)
      returns (request: Option<ChatRequest>)
      requires Valid()
      modifies this
      ensures Valid()
      ensures old(processing) || Trim(input) == [] ==>
        && request == None
        && history == old(history) && processing == old(processing)
        && stored == old(stored) && view == old(view)
      ensures !old(processing) && Trim(input) != [] ==>
        var sent := old(history) + [Turn(User, Trim(input))];
        var reply := SendToApi(outcome);
        && request == Some(ChatRequest(model, sent, Temperature))
        && !processing
        && history == sent + (if Truthy(reply) then [Turn(Assistant, reply.value)] else [])
        && stored == (if Truthy(reply) then Some(history) else old(stored))
    {
      request := Submit(input, model);
      if request.Some? {
        Complete(outcome);
      }
    }
  }
}
