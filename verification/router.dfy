/** The request router of build/background.js: the `chrome.runtime`
    message listener that dispatches on `action`, and the two streaming
    handlers `handleInlineCompletion` and `handleQuestionWithContext`.
    Messages sent to a tab are returned as the addressed tab id and the
    list of messages, in order. */
module Router {
  import opened Wrappers
  import opened StreamDecoder
  import opened Dispatcher
  import opened Conversations
  import opened ChatManager

  datatype Tab = Tab(id: int)

  /** `sender` of a runtime message: content scripts have a tab. */
  datatype Sender = Sender(tab: Option<Tab>)

  /** A message `chrome.tabs.sendMessage` delivers to a content script. */
  datatype TabMessage =
    | StreamEvent(action: string, requestId: string, content: Option<string>, error: Option<string>, isDone: Option<bool>)
    | PartialResponse(chatId: string, partial: string)
    | ResponseComplete(chatId: string)

  const INLINE_RESPONSE: string := "inlineCompletionResponse"
  const QUESTION_RESPONSE: string := "questionResponse"
  const TAB_UNAVAILABLE: string := "Tab ID not available"
  const SELECTION_PREFIX: string := "The following is the text selected by the user:\n"
  /** What reading `sender.tab.id` throws when the sender has no tab. */
  const NO_TAB_TYPE_ERROR: string := "Cannot read properties of undefined (reading 'id')"

  /** `sender.tab ? sender.tab.id : null` */
  function TabIdOf(sender: Sender): (tabId: Option<int>)
    ensures tabId.Some? <==> sender.tab.Some?
    ensures tabId.Some? ==> tabId.value == sender.tab.value.id
  {
    match sender.tab
    case Some(tab) => Some(tab.id)
    case None => None
  }

  /** The `!tabId` guard fails for a missing tab and for tab id 0. */
  predicate HasTarget(tabId: Option<int>): (b: bool)
    ensures tabId.None? ==> !b
    ensures tabId == Some(0) ==> !b
    ensures b <==> exists id :: id != 0 && tabId == Some(id)
  {
    tabId.Some? && tabId.value != 0
  }

  /** A sender is refused exactly when it has no tab or its tab id is 0. */
  lemma {:induction false} NoTargetSenders(sender: Sender)
    ensures !HasTarget(TabIdOf(sender)) <==> sender.tab.None? || sender.tab.value.id == 0
  {
    if sender.tab.Some? && sender.tab.value.id != 0 {
      assert TabIdOf(sender) == Some(sender.tab.value.id);
    }
  }

  // ---------------------------------------------------------------------
  // Event emission for the streaming handlers.

  /** Whether the handlers' callback sends anything for a call. */
  predicate Sends(p: Progress) {
    p.Done? || p.content != ""
  }

  /** The message the callback sends for one call. */
  function EventFor(action: string, requestId: string, p: Progress): (e: TabMessage)
    ensures e.StreamEvent? && e.action == action && e.requestId == requestId && e.error.None?
    ensures p.Partial? ==> e.content == Some(p.content) && e.isDone == Some(false)
    ensures p.Done? ==> e.content.None? && e.isDone == Some(true)
  {
    if p.Partial? then StreamEvent(action, requestId, Some(p.content), None, Some(false))
    else StreamEvent(action, requestId, None, None, Some(true))
  }

  /** The messages the callback sends for a list of calls. */
  function ProgressEvents(action: string, requestId: string, progress: seq<Progress>): (events: seq<TabMessage>)
    ensures |events| <= |progress|
    ensures forall i :: 0 <= i < |events| ==>
              events[i].StreamEvent? && events[i].action == action && events[i].requestId == requestId && events[i].error.None?
    decreases |progress|
  {
    if |progress| == 0 then []
    else
      var last := progress[|progress| - 1];
      ProgressEvents(action, requestId, progress[..|progress| - 1]) +
        (if Sends(last) then [EventFor(action, requestId, last)] else [])
  }

  /** The catch block's message. */
  function ErrorEvent(action: string, requestId: string, error: string): (e: TabMessage)
    ensures e.StreamEvent? && e.action == action && e.requestId == requestId
    ensures e.content.None? && e.error == Some(error) && e.isDone == Some(true)
    ensures forall p :: e != EventFor(action, requestId, p)
  {
    StreamEvent(action, requestId, None, Some(error), Some(true))
  }

  /** Everything a handler with a usable tab sends for an outcome: the
      callback's messages, then the catch block's error message if the
      request failed. */
  function StreamEvents(action: string, requestId: string, o: Outcome): (events: seq<TabMessage>)
    ensures forall i :: 0 <= i < |events| ==>
              events[i].StreamEvent? && events[i].action == action && events[i].requestId == requestId
    ensures o.result.Success? ==> forall i :: 0 <= i < |events| ==> events[i].error.None?
    ensures o.result.Failure? ==> |events| > 0 && events[|events| - 1].error == Some(o.result.error)
  {
    ProgressEvents(action, requestId, o.progress) +
      (if o.result.Failure? then [ErrorEvent(action, requestId, o.result.error)] else [])
  }

  /** What a handler sends when the sender has no usable tab: the inline
      handler leaves `isDone` out, the question handler sets it. */
  function NoTabEvent(action: string, requestId: string, isDone: Option<bool>): (e: TabMessage)
    ensures e.StreamEvent? && e.action == action && e.requestId == requestId
    ensures e.content.None? && e.error == Some(TAB_UNAVAILABLE) && e.isDone == isDone
  {
    StreamEvent(action, requestId, None, Some(TAB_UNAVAILABLE), isDone)
  }

  /** When every partial content is non-empty, each call yields exactly its
      own message. */
  lemma {:induction false} ProgressEventsOneToOne(action: string, requestId: string, progress: seq<Progress>)
    requires forall i :: 0 <= i < |progress| && progress[i].Partial? ==> progress[i].content != ""
    ensures |ProgressEvents(action, requestId, progress)| == |progress|
    ensures forall i :: 0 <= i < |progress| ==>
              ProgressEvents(action, requestId, progress)[i] == EventFor(action, requestId, progress[i])
    decreases |progress|
  {
    if |progress| > 0 {
      ProgressEventsOneToOne(action, requestId, progress[..|progress| - 1]);
    }
  }

  /** The protocol the content scripts rely on: every message carries the
      action and the request id, every message but the last is a partial
      one with non-empty content and `isDone: false`, and the last one is
      the only one with `isDone: true`; it carries the error exactly when
      the request failed. */
  lemma StreamEventsProtocol(action: string, requestId: string, o: Outcome)
    requires WellFormed(o)
    ensures var ev := StreamEvents(action, requestId, o);
      && |ev| > 0
      && (forall i :: 0 <= i < |ev| ==> ev[i].StreamEvent? && ev[i].action == action && ev[i].requestId == requestId)
      && (forall i :: 0 <= i < |ev| - 1 ==>
            ev[i].isDone == Some(false) && ev[i].error.None? && ev[i].content.Some? && ev[i].content.value != "")
      && ev[|ev| - 1].isDone == Some(true)
      && ev[|ev| - 1].content.None?
      && (o.result.Failure? <==> ev[|ev| - 1].error.Some?)
      && (o.result.Failure? ==> ev[|ev| - 1].error.value == o.result.error)
  {
    var p := o.progress;
    ProgressEventsOneToOne(action, requestId, p);
    var pe := ProgressEvents(action, requestId, p);
    var ev := StreamEvents(action, requestId, o);
    if o.result.Failure? {
      assert ev == pe + [ErrorEvent(action, requestId, o.result.error)];
      assert forall i :: 0 <= i < |pe| ==> ev[i] == pe[i];
    } else {
      assert ev == pe;
    }
  }

  // ---------------------------------------------------------------------
  // The handlers.

  /** `handleInlineCompletion`: without a usable tab, one error message
      (with no `isDone`) is addressed to the missing tab and nothing is
      requested; otherwise the prompt is sent as a single user message and
      the stream is relayed to the tab. */
  method HandleInlineCompletion(prompt: string, requestId: string, sender: Sender,
                                settings: Settings, net: Network, extract: Extractor)
    returns (sent: Option<Request>, target: Option<int>, events: seq<TabMessage>)
    ensures target == TabIdOf(sender)
    ensures !HasTarget(target) ==> sent.None? && events == [NoTabEvent(INLINE_RESPONSE, requestId, None)]
    ensures HasTarget(target) ==>
              var d := Dispatch(settings, [Message(User, prompt)], net, extract);
              sent == d.0 && events == StreamEvents(INLINE_RESPONSE, requestId, d.1)
  {
    var messages := [Message(User, prompt)];
    target := TabIdOf(sender);
    if !HasTarget(target) {
      return None, target, [NoTabEvent(INLINE_RESPONSE, requestId, None)];
    }
    var outcome;
    sent, outcome := SendAIRequest(settings, messages, net, extract);
    events := StreamEvents(INLINE_RESPONSE, requestId, outcome);
  }

  /** The messages `handleQuestionWithContext` sends: a system message
      quoting a non-empty selection, then the question. */
  function QuestionMessages(question: string, context: string): (messages: seq<Message>)
    ensures |messages| > 0 && messages[|messages| - 1] == Message(User, question)
    ensures context == "" ==> |messages| == 1
    ensures context != "" ==> |messages| == 2 && messages[0] == Message(System, SELECTION_PREFIX + context)
  {
    (if context != "" then [Message(System, SELECTION_PREFIX + context)] else []) + [Message(User, question)]
  }

  /** `handleQuestionWithContext`: like the inline handler, with the
      selection as context and `isDone: true` on the no-tab message. */
  method HandleQuestionWithContext(question: string, context: string, requestId: string, sender: Sender,
                                   settings: Settings, net: Network, extract: Extractor)
    returns (sent: Option<Request>, target: Option<int>, events: seq<TabMessage>)
    ensures target == TabIdOf(sender)
    ensures !HasTarget(target) ==> sent.None? && events == [NoTabEvent(QUESTION_RESPONSE, requestId, Some(true))]
    ensures HasTarget(target) ==>
              var d := Dispatch(settings, QuestionMessages(question, context), net, extract);
              sent == d.0 && events == StreamEvents(QUESTION_RESPONSE, requestId, d.1)
  {
    var messages: seq<Message> := [];
    if context != "" {
      messages := [Message(System, SELECTION_PREFIX + context)];
    }
    messages := messages + [Message(User, question)];
    assert messages == QuestionMessages(question, context);
    target := TabIdOf(sender);
    if !HasTarget(target) {
      return None, target, [NoTabEvent(QUESTION_RESPONSE, requestId, Some(true))];
    }
    var outcome;
    sent, outcome := SendAIRequest(settings, messages, net, extract);
    events := StreamEvents(QUESTION_RESPONSE, requestId, outcome);
  }

  /** The messages the `continueChat` callback sends to the sidebar. */
  function ChatEvents(chatId: string, forwarded: seq<Progress>): (events: seq<TabMessage>)
    ensures |events| <= |forwarded|
    ensures forall i :: 0 <= i < |events| ==>
              && (events[i].PartialResponse? || events[i].ResponseComplete?)
              && events[i].chatId == chatId
              && (events[i].PartialResponse? ==> events[i].partial != "")
    decreases |forwarded|
  {
    if |forwarded| == 0 then []
    else
      var last := forwarded[|forwarded| - 1];
      ChatEvents(chatId, forwarded[..|forwarded| - 1]) +
        (if last.Done? then [ResponseComplete(chatId)]
         else if last.content != "" then [PartialResponse(chatId, last.content)]
         else [])
  }

  // ---------------------------------------------------------------------
  // The action dispatch.

  /** A runtime message, by `action`. */
  datatype Inbound =
    | ContinueChatRequest(chatId: string, message: string, context: Option<Message>)
    | GetChatHistoryRequest(chatId: string)
    | GetChatListRequest
    | RenameChatRequest(chatId: string, newTitle: string)
    | DeleteChatRequest(chatId: string)
    | InlineCompletionRequest(prompt: string, requestId: string)
    | AskQuestionRequest(question: string, selection: string, requestId: string)
    | Unhandled(action: string)

  /** What `sendResponse` is called with. */
  datatype Response =
    | Succeeded
    | WithHistory(history: seq<Message>)
    | WithChatList(chatList: seq<Entry>)
    | Failed(error: string)

  /** The listener: the returned flag keeps the response channel open;
      `response` is what `sendResponse` receives, if it is ever called. */
  method HandleMessage(store: ChatStore, request: Inbound, sender: Sender,
                       settings: Settings, net: Network, extract: Extractor)
    returns (keepOpen: bool, response: Option<Response>, sent: Option<Request>,
             target: Option<int>, events: seq<TabMessage>)
    requires store.Valid()
    modifies store
    ensures store.Valid()
    ensures keepOpen <==> !request.Unhandled?
    ensures request.Unhandled? ==> response.None? && sent.None? && events == []
    ensures (request.InlineCompletionRequest? || request.AskQuestionRequest?) ==> response.None?
    ensures !(request.ContinueChatRequest? || request.RenameChatRequest? || request.DeleteChatRequest?) ==>
              store.transcripts == old(store.transcripts) && store.directory == old(store.directory)
    ensures request.GetChatHistoryRequest? ==>
              response == Some(WithHistory(History(old(store.transcripts), request.chatId)))
    ensures request.GetChatListRequest? ==> response == Some(WithChatList(old(store.directory)))
    ensures request.RenameChatRequest? ==>
              && (response == Some(Succeeded) <==> request.chatId in Ids(old(store.directory)))
              && (response != Some(Succeeded) ==> response == Some(Failed(CHAT_NOT_FOUND)))
              && store.transcripts == old(store.transcripts)
              && store.directory == if response == Some(Succeeded)
                                    then Upserted(old(store.directory), request.chatId, request.newTitle)
                                    else old(store.directory)
    ensures request.DeleteChatRequest? ==>
              && response == Some(Succeeded)
              && store.transcripts == old(store.transcripts) - {request.chatId}
              && store.directory == Removed(old(store.directory), request.chatId)
    ensures request.InlineCompletionRequest? ==>
              && target == TabIdOf(sender)
              && (!HasTarget(target) ==>
                    sent.None? && events == [NoTabEvent(INLINE_RESPONSE, request.requestId, None)])
              && (HasTarget(target) ==>
                    var d := Dispatch(settings, [Message(User, request.prompt)], net, extract);
                    sent == d.0 && events == StreamEvents(INLINE_RESPONSE, request.requestId, d.1))
    ensures request.AskQuestionRequest? ==>
              && target == TabIdOf(sender)
              && (!HasTarget(target) ==>
                    sent.None? && events == [NoTabEvent(QUESTION_RESPONSE, request.requestId, Some(true))])
              && (HasTarget(target) ==>
                    var d := Dispatch(settings, QuestionMessages(request.question, request.selection), net, extract);
                    sent == d.0 && events == StreamEvents(QUESTION_RESPONSE, request.requestId, d.1))
    ensures request.ContinueChatRequest? ==>
              var previous := History(old(store.transcripts), request.chatId);
              var d := Dispatch(settings, TurnMessages(request.context, previous, request.message), net, extract);
              && sent == d.0
              && target == TabIdOf(sender)
              && events == (if sender.tab.Some? then ChatEvents(request.chatId, d.1.progress) else [])
              && (response == Some(Succeeded) <==> d.1.result.Success? && sender.tab.Some?)
              && (d.1.result.Failure? ==> response == Some(Failed(d.1.result.error)))
              && (d.1.result.Success? && sender.tab.None? ==> response == Some(Failed(NO_TAB_TYPE_ERROR)))
              && (response == Some(Succeeded) ==>
                    && store.transcripts == old(store.transcripts)[request.chatId :=
                         previous + [Message(User, request.message), Message(Assistant, d.1.result.value)]]
                    && store.directory == Upserted(old(store.directory), request.chatId,
                         if previous == [] then GenerateChatTitle(request.message) else DEFAULT_TITLE))
              && (response != Some(Succeeded) ==>
                    store.transcripts == old(store.transcripts) && store.directory == old(store.directory))
  {
    keepOpen, response, sent, target, events := true, None, None, None, [];
    match request
    case ContinueChatRequest(chatId, message, context) =>
      var fault := if sender.tab.None? then Some(NO_TAB_TYPE_ERROR) else None;
      var forwarded, result;
      sent, forwarded, result := ContinueChat(store, chatId, message, context, settings, net, extract, fault);
      target := TabIdOf(sender);
      if sender.tab.Some? {
        events := ChatEvents(chatId, forwarded);
      }
      response := Some(if result.Success? then Succeeded else Failed(result.error));
    case GetChatHistoryRequest(chatId) =>
      var history := store.GetChatHistory(chatId);
      response := Some(WithHistory(history));
    case GetChatListRequest =>
      var chatList := store.GetChatList();
      response := Some(WithChatList(chatList));
    case RenameChatRequest(chatId, newTitle) =>
      var status := store.RenameChat(chatId, newTitle);
      response := Some(if status.Resolved? then Succeeded else Failed(status.message));
    case DeleteChatRequest(chatId) =>
      store.DeleteChat(chatId);
      response := Some(Succeeded);
    case InlineCompletionRequest(prompt, requestId) =>
      sent, target, events := HandleInlineCompletion(prompt, requestId, sender, settings, net, extract);
    case AskQuestionRequest(question, context, requestId) =>
      sent, target, events := HandleQuestionWithContext(question, context, requestId, sender, settings, net, extract);
    case Unhandled(_) =>
      keepOpen := false;
  }
}
