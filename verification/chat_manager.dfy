/** `continueChat` and `generateChatTitle` of build/background.js: one turn
    of a stored conversation. The stored transcript (with the optional
    page-context message in front) and the new user turn are dispatched;
    on success the exchange is appended to the transcript and the
    directory entry is written with a title derived from the first user
    message, or `Chat` on later turns. */
module ChatManager {
  import opened Wrappers
  import opened StreamDecoder
  import opened Dispatcher
  import opened Conversations

  const TITLE_LIMIT: nat := 30
  const ELLIPSIS: string := "..."
  const DEFAULT_TITLE: string := "Chat"

  /** A message of at most 30 characters is its own title; a longer one is
      cut to 30 characters and marked with an ellipsis. */
  function GenerateChatTitle(message: string): (title: string)
    ensures |message| <= TITLE_LIMIT ==> title == message
    ensures |message| > TITLE_LIMIT ==>
              && |title| == TITLE_LIMIT + |ELLIPSIS|
              && title[..TITLE_LIMIT] == message[..TITLE_LIMIT]
              && title[TITLE_LIMIT..] == ELLIPSIS
  {
    if |message| > TITLE_LIMIT then message[..TITLE_LIMIT] + ELLIPSIS else message
  }

  /** The messages sent for one turn: the context message (if any), the
      stored transcript, then the new user message. */
  function TurnMessages(context: Option<Message>, previous: seq<Message>, newMessage: string): (messages: seq<Message>)
    ensures |messages| == |previous| + 1 + (if context.Some? then 1 else 0)
    ensures messages[|messages| - 1] == Message(User, newMessage)
    ensures context.Some? ==> messages[0] == context.value && messages[1..|messages| - 1] == previous
    ensures context.None? ==> messages[..|messages| - 1] == previous
  {
    (if context.Some? then [context.value] else []) + previous + [Message(User, newMessage)]
  }

  /** Pushing the assistant turn and dropping the context message leaves
      the stored transcript followed by the new exchange. */
  lemma StoredExchange(context: Option<Message>, previous: seq<Message>, newMessage: string, reply: string)
    ensures var h := TurnMessages(context, previous, newMessage) + [Message(Assistant, reply)];
            (if context.Some? then h[1..] else h) == previous + [Message(User, newMessage), Message(Assistant, reply)]
  {
  }

  /** The title `continueChat` writes, decided from the length of its
      working transcript once the assistant turn is pushed. */
  function ChatTitle(historyLength: nat, context: Option<Message>, newMessage: string): (title: string)
    ensures historyLength == 2 ==> title == GenerateChatTitle(newMessage)
    ensures context.Some? && historyLength == 3 ==> title == GenerateChatTitle(newMessage)
    ensures historyLength != 2 && !(context.Some? && historyLength == 3) ==> title == DEFAULT_TITLE
  {
    if historyLength == 2 || (context.Some? && historyLength == 3) then GenerateChatTitle(newMessage)
    else DEFAULT_TITLE
  }

  /** The length test picks the derived title exactly on the first exchange
      of a chat, with or without a context message. */
  lemma ChatTitleOnFirstExchange(context: Option<Message>, previous: seq<Message>, newMessage: string)
    ensures var n := |TurnMessages(context, previous, newMessage)| + 1;
            ChatTitle(n, context, newMessage) ==
              if previous == [] then GenerateChatTitle(newMessage) else DEFAULT_TITLE
  {
    if previous != [] {
      assert |previous| >= 1;
    }
  }

  /** Turns on a new chat: the first lists it under the derived title,
      the second replaces that title with `Chat`, and every later turn
      writes `Chat` again, leaving the directory as it was; no other chat
      is affected and the chat is listed once. */
  lemma SecondTurnRetitles(list: seq<Entry>, chatId: string, first: string)
    requires chatId !in Ids(list)
    ensures var once := Upserted(list, chatId, GenerateChatTitle(first));
            var twice := Upserted(once, chatId, DEFAULT_TITLE);
            && TitleOf(once, chatId) == Some(GenerateChatTitle(first))
            && TitleOf(twice, chatId) == Some(DEFAULT_TITLE)
            && |twice| == |list| + 1
            && (forall other :: other != chatId ==> TitleOf(twice, other) == TitleOf(list, other))
            && Upserted(twice, chatId, DEFAULT_TITLE) == twice
  {
    UpsertedIdempotent(Upserted(list, chatId, GenerateChatTitle(first)), chatId, DEFAULT_TITLE);
    var once := Upserted(list, chatId, GenerateChatTitle(first));
    UpsertedTitle(list, chatId, GenerateChatTitle(first), chatId);
    UpsertedTitle(once, chatId, DEFAULT_TITLE, chatId);
    forall other | other != chatId
      ensures TitleOf(Upserted(once, chatId, DEFAULT_TITLE), other) == TitleOf(list, other)
    {
      UpsertedTitle(list, chatId, GenerateChatTitle(first), other);
      UpsertedTitle(once, chatId, DEFAULT_TITLE, other);
    }
  }

  /** The calls the `continueChat` callback passes on: a truthy partial
      content is forwarded, and so is the final call. */
  function Relayed(progress: seq<Progress>): seq<Progress>
    decreases |progress|
  {
    if |progress| == 0 then []
    else
      var last := progress[|progress| - 1];
      Relayed(progress[..|progress| - 1]) +
        (if last.Done? || last.content != "" then [last] else [])
  }

  /** Under the dispatcher's protocol (every partial content non-empty) the
      callback forwards every call unchanged. */
  lemma {:induction false} RelayedIsIdentity(progress: seq<Progress>)
    requires forall i :: 0 <= i < |progress| && progress[i].Partial? ==> progress[i].content != ""
    ensures Relayed(progress) == progress
    decreases |progress|
  {
    if |progress| > 0 {
      var n := |progress| - 1;
      RelayedIsIdentity(progress[..n]);
      assert progress[..n] + [progress[n]] == progress;
    }
  }

  /** Whatever `sendAIRequest` reports, the callback forwards it unchanged
      and its accumulated text is the value returned. */
  lemma RelayedDispatch(settings: Settings, messages: seq<Message>, net: Network, extract: Extractor)
    ensures var o := Dispatch(settings, messages, net, extract).1;
            && Relayed(o.progress) == o.progress
            && (o.result.Success? ==> Streamed(o.progress) == o.result.value)
  {
    var o := Dispatch(settings, messages, net, extract).1;
    DispatchWellFormed(settings, messages, net, extract);
    RelayedIsIdentity(o.progress);
  }

  /** The callback given to `sendAIRequest`, applied to each call in turn:
      it accumulates the response text and forwards the calls. */
  method Relay(progress: seq<Progress>) returns (responseContent: string, forwarded: seq<Progress>)
    ensures responseContent == Streamed(progress)
    ensures forwarded == Relayed(progress)
  {
    responseContent, forwarded := "", [];
    for i := 0 to |progress|
      invariant responseContent == Streamed(progress[..i])
      invariant forwarded == Relayed(progress[..i])
    {
      assert progress[..i + 1][..i] == progress[..i];
      match progress[i]
      case Partial(partialResponse) =>
        if partialResponse != "" {
          responseContent := responseContent + partialResponse;
          forwarded := forwarded + [Partial(partialResponse)];
        } else {
          assert responseContent + partialResponse == responseContent;
        }
      case Done =>
        forwarded := forwarded + [Done];
        assert responseContent + "" == responseContent;
    }
    assert progress[..|progress|] == progress;
  }

  /** The transcript stored for a chat, empty when there is none. */
  function History(transcripts: map<string, seq<Message>>, chatId: string): (h: seq<Message>)
    ensures chatId !in transcripts ==> h == []
    ensures chatId in transcripts ==> h == transcripts[chatId]
  {
    if chatId in transcripts then transcripts[chatId] else []
  }

  /** Reading a chat's history gives back what was last stored for it, and
      storing another chat does not change it. */
  lemma HistoryOfStored(transcripts: map<string, seq<Message>>, chatId: string, other: string, stored: seq<Message>)
    ensures History(transcripts[chatId := stored], chatId) == stored
    ensures other != chatId ==> History(transcripts[other := stored], chatId) == History(transcripts, chatId)
  {
  }

  /** `continueChat`. The caller's `onProgress` throws `progressFault`
      when it is `Some` (the router's callback for a sender without a tab):
      a throw from a partial call is swallowed by the read loop, the throw
      from the final call rejects the turn. A rejected turn stores
      nothing. */
  method ContinueChat(store: ChatStore, chatId: string, newMessage: string, context: Option<Message>,
                      settings: Settings, net: Network, extract: Extractor, progressFault: Option<string>)
    returns (sent: Option<Request>, forwarded: seq<Progress>, result: Result<string, string>)
    requires store.Valid()
    modifies store
    ensures store.Valid()
    ensures var previous := History(old(store.transcripts), chatId);
            var d := Dispatch(settings, TurnMessages(context, previous, newMessage), net, extract);
            && sent == d.0
            && forwarded == d.1.progress
            && (result.Success? <==> d.1.result.Success? && progressFault.None?)
            && (d.1.result.Failure? ==> result == d.1.result)
            && (d.1.result.Success? && progressFault.Some? ==> result == Failure(progressFault.value))
            && (result.Success? ==>
                  && result == d.1.result
                  && store.transcripts == old(store.transcripts)[chatId :=
                       previous + [Message(User, newMessage), Message(Assistant, result.value)]]
                  && store.directory == Upserted(old(store.directory), chatId,
                       if previous == [] then GenerateChatTitle(newMessage) else DEFAULT_TITLE))
            && (result.Failure? ==> store.transcripts == old(store.transcripts) && store.directory == old(store.directory))
  {
    var previous := store.GetChatHistory(chatId);
    var chatHistory := TurnMessages(context, previous, newMessage);
    var outcome;
    sent, outcome := SendAIRequest(settings, chatHistory, net, extract);
    var responseContent;
    responseContent, forwarded := Relay(outcome.progress);
    RelayedDispatch(settings, chatHistory, net, extract);
    if outcome.result.Failure? {
      return sent, forwarded, outcome.result;
    }
    if progressFault.Some? {
      return sent, forwarded, Failure(progressFault.value);
    }
    chatHistory := chatHistory + [Message(Assistant, responseContent)];
    ChatTitleOnFirstExchange(context, previous, newMessage);
    var chatTitle := ChatTitle(|chatHistory|, context, newMessage);
    if context.Some? {
      chatHistory := chatHistory[1..];
    }
    StoredExchange(context, previous, newMessage, responseContent);
    store.StoreChatHistory(chatId, chatHistory, chatTitle);
    result := Success(responseContent);
  }
}
