/** The content-script listeners of src/contentScript.js that consume what
    the router sends: the per-request listener of an inline completion, the
    per-request listener of the question menu, and the sidebar's filter on
    the current chat. Each listener is a small state machine: a text buffer
    and whether it is still attached. The step functions state one
    delivery; the classes are the listeners themselves. */
module ResponseListeners {
  import opened Wrappers
  import opened StreamDecoder
  import opened Dispatcher
  import opened Router

  /** A listener's text buffer and whether it still receives messages. */
  datatype Listening = Listening(text: string, attached: bool)

  const ERROR_PREFIX: string := "Error: "

  /** Whether a message is a stream event for this action and request. */
  predicate Addressed(m: TabMessage, action: string, requestId: string) {
    m.StreamEvent? && m.action == action && m.requestId == requestId
  }

  /** The inline listener: a matching message appends its truthy content
      to the element and detaches the listener when `isDone` is set. */
  function InlineStep(st: Listening, requestId: string, m: TabMessage): (r: Listening)
    ensures !st.attached || !Addressed(m, INLINE_RESPONSE, requestId) ==> r == st
    ensures Addressed(m, INLINE_RESPONSE, requestId) && st.attached ==>
              && r.attached == (m.isDone != Some(true))
              && (Truthy(m.content) ==> r.text == st.text + m.content.value)
              && (!Truthy(m.content) ==> r.text == st.text)
  {
    if !st.attached || !Addressed(m, INLINE_RESPONSE, requestId) then st
    else
      var text := if Truthy(m.content) then st.text + m.content.value else st.text;
      Listening(text, m.isDone != Some(true))
  }

  /** The question listener: like the inline one, except that a truthy
      `error` replaces the whole text with `Error: ` and the error, and
      detaches the listener. */
  function QuestionStep(st: Listening, requestId: string, m: TabMessage): (r: Listening)
    ensures !st.attached || !Addressed(m, QUESTION_RESPONSE, requestId) ==> r == st
    ensures Addressed(m, QUESTION_RESPONSE, requestId) && st.attached ==>
              && r.attached == (m.isDone != Some(true) && !Truthy(m.error))
              && (Truthy(m.error) ==> r.text == ERROR_PREFIX + m.error.value)
              && (!Truthy(m.error) && Truthy(m.content) ==> r.text == st.text + m.content.value)
              && (!Truthy(m.error) && !Truthy(m.content) ==> r.text == st.text)
  {
    if !st.attached || !Addressed(m, QUESTION_RESPONSE, requestId) then st
    else
      var text := if Truthy(m.content) then st.text + m.content.value else st.text;
      var attached := m.isDone != Some(true);
      if Truthy(m.error) then Listening(ERROR_PREFIX + m.error.value, false)
      else Listening(text, attached)
  }

  /** Delivering messages in order. */
  function InlineReplay(st: Listening, requestId: string, ms: seq<TabMessage>): Listening
    decreases |ms|
  {
    if |ms| == 0 then st
    else InlineStep(InlineReplay(st, requestId, ms[..|ms| - 1]), requestId, ms[|ms| - 1])
  }

  function QuestionReplay(st: Listening, requestId: string, ms: seq<TabMessage>): Listening
    decreases |ms|
  {
    if |ms| == 0 then st
    else QuestionStep(QuestionReplay(st, requestId, ms[..|ms| - 1]), requestId, ms[|ms| - 1])
  }

  lemma InlineReplaySnoc(st: Listening, requestId: string, ms: seq<TabMessage>, m: TabMessage)
    ensures InlineReplay(st, requestId, ms + [m]) == InlineStep(InlineReplay(st, requestId, ms), requestId, m)
  {
    assert (ms + [m])[..|ms|] == ms;
  }

  lemma QuestionReplaySnoc(st: Listening, requestId: string, ms: seq<TabMessage>, m: TabMessage)
    ensures QuestionReplay(st, requestId, ms + [m]) == QuestionStep(QuestionReplay(st, requestId, ms), requestId, m)
  {
    assert (ms + [m])[..|ms|] == ms;
  }

  /** Messages for another request or another action leave the inline
      listener as it was. */
  lemma {:induction false} InlineIgnoresOthers(st: Listening, requestId: string, ms: seq<TabMessage>)
    requires forall i :: 0 <= i < |ms| ==> !Addressed(ms[i], INLINE_RESPONSE, requestId)
    ensures InlineReplay(st, requestId, ms) == st
    decreases |ms|
  {
    if |ms| > 0 {
      InlineIgnoresOthers(st, requestId, ms[..|ms| - 1]);
    }
  }

  lemma {:induction false} QuestionIgnoresOthers(st: Listening, requestId: string, ms: seq<TabMessage>)
    requires forall i :: 0 <= i < |ms| ==> !Addressed(ms[i], QUESTION_RESPONSE, requestId)
    ensures QuestionReplay(st, requestId, ms) == st
    decreases |ms|
  {
    if |ms| > 0 {
      QuestionIgnoresOthers(st, requestId, ms[..|ms| - 1]);
    }
  }

  /** One partial message with non-empty content appends it. */
  lemma InlinePartialStep(text: string, requestId: string, content: string)
    requires content != ""
    ensures InlineStep(Listening(text, true), requestId, EventFor(INLINE_RESPONSE, requestId, Partial(content))) ==
              Listening(text + content, true)
  {
  }

  lemma QuestionPartialStep(text: string, requestId: string, content: string)
    requires content != ""
    ensures QuestionStep(Listening(text, true), requestId, EventFor(QUESTION_RESPONSE, requestId, Partial(content))) ==
              Listening(text + content, true)
  {
  }

  /** The text of one more partial call. */
  lemma StreamedPartialSnoc(text: string, p: seq<Progress>)
    requires |p| > 0 && p[|p| - 1].Partial?
    ensures (text + Streamed(p[..|p| - 1])) + p[|p| - 1].content == text + Streamed(p)
  {
  }

  /** Partial calls with non-empty contents, as the router sends them,
      append their contents in order and keep a listener attached. */
  lemma {:induction false} InlineReplayPartials(text: string, requestId: string, p: seq<Progress>)
    requires forall i :: 0 <= i < |p| ==> p[i].Partial? && p[i].content != ""
    ensures InlineReplay(Listening(text, true), requestId, ProgressEvents(INLINE_RESPONSE, requestId, p)) ==
              Listening(text + Streamed(p), true)
    decreases |p|
  {
    if |p| == 0 {
      assert text + "" == text;
    } else {
      var n := |p| - 1;
      var before := ProgressEvents(INLINE_RESPONSE, requestId, p[..n]);
      var m := EventFor(INLINE_RESPONSE, requestId, p[n]);
      assert ProgressEvents(INLINE_RESPONSE, requestId, p) == before + [m];
      InlineReplayPartials(text, requestId, p[..n]);
      InlineReplaySnoc(Listening(text, true), requestId, before, m);
      InlinePartialStep(text + Streamed(p[..n]), requestId, p[n].content);
      StreamedPartialSnoc(text, p);
    }
  }

  lemma {:induction false} QuestionReplayPartials(text: string, requestId: string, p: seq<Progress>)
    requires forall i :: 0 <= i < |p| ==> p[i].Partial? && p[i].content != ""
    ensures QuestionReplay(Listening(text, true), requestId, ProgressEvents(QUESTION_RESPONSE, requestId, p)) ==
              Listening(text + Streamed(p), true)
    decreases |p|
  {
    if |p| == 0 {
      assert text + "" == text;
    } else {
      var n := |p| - 1;
      var before := ProgressEvents(QUESTION_RESPONSE, requestId, p[..n]);
      var m := EventFor(QUESTION_RESPONSE, requestId, p[n]);
      assert ProgressEvents(QUESTION_RESPONSE, requestId, p) == before + [m];
      QuestionReplayPartials(text, requestId, p[..n]);
      QuestionReplaySnoc(Listening(text, true), requestId, before, m);
      QuestionPartialStep(text + Streamed(p[..n]), requestId, p[n].content);
      StreamedPartialSnoc(text, p);
    }
  }

  /** The partial calls of an outcome: every call but a final `Done`. */
  function PartialCalls(o: Outcome): seq<Progress> {
    var p := o.progress;
    if o.result.Success? && |p| > 0 then p[..|p| - 1] else p
  }

  /** A well-formed outcome splits into its partial calls and, on success,
      the final `Done`. */
  lemma OutcomeShape(o: Outcome)
    requires WellFormed(o)
    ensures var p := o.progress;
            var q := PartialCalls(o);
            && (forall i :: 0 <= i < |q| ==> q[i].Partial? && q[i].content != "")
            && (o.result.Success? ==> p == q + [Done] && o.result.value == Streamed(q))
            && (o.result.Failure? ==> p == q)
            && Streamed(p) == Streamed(q)
  {
    var p := o.progress;
    if o.result.Success? {
      var q := p[..|p| - 1];
      assert p == q + [Done];
      StreamedDone(q);
    }
  }

  /** The message that ends what a handler sends. */
  function FinalEvent(action: string, requestId: string, o: Outcome): TabMessage {
    if o.result.Success? then EventFor(action, requestId, Done)
    else ErrorEvent(action, requestId, o.result.error)
  }

  /** What a handler sends is the messages of the partial calls, then the
      final message. */
  lemma StreamEventsSplit(action: string, requestId: string, o: Outcome)
    requires WellFormed(o)
    ensures StreamEvents(action, requestId, o) ==
              ProgressEvents(action, requestId, PartialCalls(o)) + [FinalEvent(action, requestId, o)]
  {
    var p := o.progress;
    var q := PartialCalls(o);
    OutcomeShape(o);
    if o.result.Success? {
      assert p[..|p| - 1] == q;
      assert ProgressEvents(action, requestId, p) ==
               ProgressEvents(action, requestId, q) + [EventFor(action, requestId, Done)];
    }
  }

  /** What the `continueChat` callback sends for a successful turn is the
      partial responses, then the completion. */
  lemma ChatEventsSplit(chatId: string, o: Outcome)
    requires WellFormed(o) && o.result.Success?
    ensures ChatEvents(chatId, o.progress) == ChatEvents(chatId, PartialCalls(o)) + [ResponseComplete(chatId)]
  {
    var p := o.progress;
    assert p[..|p| - 1] == PartialCalls(o);
  }

  /** End to end: the inline listener of a request that reaches the router
      with a usable tab ends detached, with the element text followed by
      the streamed text, which on success is the completion itself. */
  lemma InlineReceivesStream(text: string, requestId: string, o: Outcome)
    requires WellFormed(o)
    ensures InlineReplay(Listening(text, true), requestId, StreamEvents(INLINE_RESPONSE, requestId, o)) ==
              Listening(text + Streamed(o.progress), false)
    ensures o.result.Success? ==> Streamed(o.progress) == o.result.value
  {
    OutcomeShape(o);
    var q := PartialCalls(o);
    var pe := ProgressEvents(INLINE_RESPONSE, requestId, q);
    var last := FinalEvent(INLINE_RESPONSE, requestId, o);
    var start := Listening(text, true);
    calc {
      InlineReplay(start, requestId, StreamEvents(INLINE_RESPONSE, requestId, o));
      { StreamEventsSplit(INLINE_RESPONSE, requestId, o); }
      InlineReplay(start, requestId, pe + [last]);
      { InlineReplaySnoc(start, requestId, pe, last); }
      InlineStep(InlineReplay(start, requestId, pe), requestId, last);
      { InlineReplayPartials(text, requestId, q); }
      InlineStep(Listening(text + Streamed(q), true), requestId, last);
      { InlineFinalStep(text + Streamed(q), requestId, o); }
      Listening(text + Streamed(q), false);
    }
  }

  /** The final message of a handler detaches the inline listener and
      adds no text. */
  lemma InlineFinalStep(text: string, requestId: string, o: Outcome)
    ensures InlineStep(Listening(text, true), requestId, FinalEvent(INLINE_RESPONSE, requestId, o)) == Listening(text, false)
  {
  }

  /** End to end for the question menu: on success the response text is
      the completion and the listener detaches; on a failure with a
      message the text is replaced by that message. */
  lemma QuestionReceivesStream(text: string, requestId: string, o: Outcome)
    requires WellFormed(o)
    ensures var r := QuestionReplay(Listening(text, true), requestId, StreamEvents(QUESTION_RESPONSE, requestId, o));
            && !r.attached
            && (o.result.Success? ==> r.text == text + o.result.value)
            && (o.result.Failure? && o.result.error != "" ==> r.text == ERROR_PREFIX + o.result.error)
            && (o.result.Failure? && o.result.error == "" ==> r.text == text + Streamed(o.progress))
  {
    OutcomeShape(o);
    var q := PartialCalls(o);
    var pe := ProgressEvents(QUESTION_RESPONSE, requestId, q);
    var last := FinalEvent(QUESTION_RESPONSE, requestId, o);
    StreamEventsSplit(QUESTION_RESPONSE, requestId, o);
    QuestionReplayPartials(text, requestId, q);
    QuestionReplaySnoc(Listening(text, true), requestId, pe, last);
  }

  // ---------------------------------------------------------------------
  // The sidebar.

  /** The sidebar's bot messages: the one still streaming, if any, and the
      completed ones in order. */
  datatype Transcript = Transcript(pending: Option<string>, completed: seq<string>)

  /** The sidebar listener: only messages for the current chat are handled;
      a partial response is appended to the pending bot message (created
      empty if there is none), and a completion marks it complete. */
  function SidebarStep(st: Transcript, currentChatId: string, m: TabMessage): (r: Transcript)
    ensures (m.PartialResponse? || m.ResponseComplete?) && m.chatId != currentChatId ==> r == st
    ensures m.StreamEvent? ==> r == st
    ensures m.PartialResponse? && m.chatId == currentChatId ==>
              r == Transcript(Some((if st.pending.Some? then st.pending.value else "") + m.partial), st.completed)
    ensures m.ResponseComplete? && m.chatId == currentChatId ==>
              r == Transcript(None, st.completed + if st.pending.Some? then [st.pending.value] else [])
  {
    match m
    case PartialResponse(chatId, content) =>
      if chatId != currentChatId then st
      else Transcript(Some((if st.pending.Some? then st.pending.value else "") + content), st.completed)
    case ResponseComplete(chatId) =>
      if chatId != currentChatId then st
      else Transcript(None, st.completed + if st.pending.Some? then [st.pending.value] else [])
    case StreamEvent(_, _, _, _, _) => st
  }

  function SidebarReplay(st: Transcript, currentChatId: string, ms: seq<TabMessage>): Transcript
    decreases |ms|
  {
    if |ms| == 0 then st
    else SidebarStep(SidebarReplay(st, currentChatId, ms[..|ms| - 1]), currentChatId, ms[|ms| - 1])
  }

  /** Whether a message is a sidebar message for a given chat. */
  predicate ForChat(m: TabMessage, chatId: string) {
    (m.PartialResponse? || m.ResponseComplete?) && m.chatId == chatId
  }

  /** Messages about other chats never change the sidebar. */
  lemma {:induction false} SidebarIgnoresOtherChats(st: Transcript, currentChatId: string, ms: seq<TabMessage>)
    requires forall i :: 0 <= i < |ms| ==> !ForChat(ms[i], currentChatId)
    ensures SidebarReplay(st, currentChatId, ms) == st
    decreases |ms|
  {
    if |ms| > 0 {
      SidebarIgnoresOtherChats(st, currentChatId, ms[..|ms| - 1]);
    }
  }

  /** The partial responses of a turn build up one pending bot message
      holding their concatenation. */
  lemma {:induction false} SidebarReplayPartials(completed: seq<string>, chatId: string, p: seq<Progress>)
    requires forall i :: 0 <= i < |p| ==> p[i].Partial? && p[i].content != ""
    ensures SidebarReplay(Transcript(None, completed), chatId, ChatEvents(chatId, p)) ==
              Transcript(if |p| == 0 then None else Some(Streamed(p)), completed)
    decreases |p|
  {
    if |p| > 0 {
      var n := |p| - 1;
      var before := ChatEvents(chatId, p[..n]);
      SidebarReplayPartials(completed, chatId, p[..n]);
      var m := PartialResponse(chatId, p[n].content);
      assert ChatEvents(chatId, p) == before + [m];
      assert (before + [m])[..|before|] == before;
      if n == 0 {
        assert Streamed(p[..n]) == "";
      }
    }
  }

  /** End to end: a successful `continueChat` turn relayed to the sidebar
      of the same chat adds one completed bot message holding the reply
      (none when the reply is empty). */
  lemma SidebarReceivesTurn(completed: seq<string>, chatId: string, o: Outcome)
    requires WellFormed(o) && o.result.Success?
    ensures SidebarReplay(Transcript(None, completed), chatId, ChatEvents(chatId, o.progress)) ==
              Transcript(None, completed + if o.result.value == "" then [] else [o.result.value])
  {
    OutcomeShape(o);
    var q := PartialCalls(o);
    var before := ChatEvents(chatId, q);
    var last := ResponseComplete(chatId);
    ChatEventsSplit(chatId, o);
    SidebarReplayPartials(completed, chatId, q);
    assert (before + [last])[..|before|] == before;
    assert SidebarReplay(Transcript(None, completed), chatId, before + [last]) ==
             SidebarStep(Transcript(if |q| == 0 then None else Some(Streamed(q)), completed), chatId, last);
    if |q| == 0 {
      assert Streamed(q) == "";
    } else {
      StreamedNonEmpty(q);
    }
  }

  /** From the dispatch to the element: the inline listener ends detached
      with the completion appended when the request succeeds. */
  lemma InlineReceivesDispatch(text: string, requestId: string, prompt: string,
                               settings: Settings, net: Network, extract: Extractor)
    ensures var o := Dispatch(settings, [Message(User, prompt)], net, extract).1;
            && InlineReplay(Listening(text, true), requestId, StreamEvents(INLINE_RESPONSE, requestId, o)) ==
                 Listening(text + Streamed(o.progress), false)
            && (o.result.Success? ==> Streamed(o.progress) == o.result.value)
  {
    DispatchWellFormed(settings, [Message(User, prompt)], net, extract);
    InlineReceivesStream(text, requestId, Dispatch(settings, [Message(User, prompt)], net, extract).1);
  }

  /** From the dispatch to the sidebar: the messages the router relays for
      a successful turn add one completed bot message holding the reply. */
  lemma SidebarReceivesDispatch(completed: seq<string>, chatId: string, messages: seq<Message>,
                                settings: Settings, net: Network, extract: Extractor)
    requires Dispatch(settings, messages, net, extract).1.result.Success?
    ensures var o := Dispatch(settings, messages, net, extract).1;
            SidebarReplay(Transcript(None, completed), chatId, ChatEvents(chatId, o.progress)) ==
              Transcript(None, completed + if o.result.value == "" then [] else [o.result.value])
  {
    DispatchWellFormed(settings, messages, net, extract);
    SidebarReceivesTurn(completed, chatId, Dispatch(settings, messages, net, extract).1);
  }

  /** The message sent when there is no usable tab: the question listener
      shows the error and detaches; the inline listener, given no
      `isDone`, stays attached with its text unchanged. */
  lemma NoTabEventEffect(text: string, requestId: string)
    ensures QuestionStep(Listening(text, true), requestId, NoTabEvent(QUESTION_RESPONSE, requestId, Some(true))) ==
              Listening(ERROR_PREFIX + TAB_UNAVAILABLE, false)
    ensures InlineStep(Listening(text, true), requestId, NoTabEvent(INLINE_RESPONSE, requestId, None)) ==
              Listening(text, true)
  {
  }

  /** Non-empty contents stream a non-empty text. */
  lemma {:induction false} StreamedNonEmpty(p: seq<Progress>)
    requires |p| > 0 && forall i :: 0 <= i < |p| ==> p[i].Partial? && p[i].content != ""
    ensures Streamed(p) != ""
    decreases |p|
  {
    var n := |p| - 1;
    assert |Streamed(p)| >= |p[n].content|;
  }

  // ---------------------------------------------------------------------
  // The listeners as objects.

  /** `handleMessage` of `handleRegexMatch`, bound to the edited element's
      text. */
  class InlineCompletionListener {
    const requestId: string
    var text: string
    var attached: bool

    constructor (requestId: string, text: string)
      ensures this.requestId == requestId && this.text == text && attached
    {
      this.requestId := requestId;
      this.text := text;
      attached := true;
    }

    function State(): Listening
      reads this
    {
      Listening(text, attached)
    }

    method OnMessage(message: TabMessage)
      modifies this
      ensures State() == InlineStep(old(State()), requestId, message)
    {
      if attached && Addressed(message, INLINE_RESPONSE, requestId) {
        if Truthy(message.content) {
          text := text + message.content.value;
        }
        if message.isDone == Some(true) {
          attached := false;
        }
      }
    }
  }

  /** `messageListener` of the question menu, bound to the response text. */
  class QuestionListener {
    const requestId: string
    var text: string
    var attached: bool

    constructor (requestId: string)
      ensures this.requestId == requestId && text == "" && attached
    {
      this.requestId := requestId;
      text := "";
      attached := true;
    }

    function State(): Listening
      reads this
    {
      Listening(text, attached)
    }

    method OnMessage(message: TabMessage)
      modifies this
      ensures State() == QuestionStep(old(State()), requestId, message)
    {
      if attached && Addressed(message, QUESTION_RESPONSE, requestId) {
        if Truthy(message.content) {
          text := text + message.content.value;
        }
        if message.isDone == Some(true) {
          attached := false;
        }
        if Truthy(message.error) {
          text := ERROR_PREFIX + message.error.value;
          attached := false;
        }
      }
    }
  }

  /** The sidebar's runtime listener and the bot messages it renders. */
  class Sidebar {
    var currentChatId: string
    var pending: Option<string>
    var completed: seq<string>

    constructor (chatId: string)
      ensures currentChatId == chatId && pending.None? && completed == []
    {
      currentChatId := chatId;
      pending := None;
      completed := [];
    }

    function State(): Transcript
      reads this
    {
      Transcript(pending, completed)
    }

    method OnMessage(message: TabMessage)
      modifies this
      ensures currentChatId == old(currentChatId)
      ensures State() == SidebarStep(old(State()), currentChatId, message)
    {
      if message.PartialResponse? && message.chatId == currentChatId {
        var bubble := if pending.Some? then pending.value else "";
        pending := Some(bubble + message.partial);
      } else if message.ResponseComplete? && message.chatId == currentChatId {
        if pending.Some? {
          completed := completed + [pending.value];
        }
        pending := None;
      }
    }
  }
}
