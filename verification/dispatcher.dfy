/** The completion dispatcher of build/background.js: `sendAIRequest` reads
    the settings and refuses to proceed without an API key;
    `sendOpenAIRequest` posts the message list and runs the read loop over
    the streamed body. The network is a parameter: a function from the
    request that would be posted to the reply it gets. */
module Dispatcher {
  import opened Wrappers
  import opened Text
  import opened StreamDecoder

  datatype Role = System | User | Assistant

  datatype Message = Message(role: Role, content: string)

  /** The keys of `chrome.storage.local` that `sendAIRequest` uses
      (`includeContext` is fetched with them but never used). */
  datatype Settings = Settings(openaiApiKey: Option<string>, openaiModel: Option<string>)

  /** The POST sent to the completion endpoint. */
  datatype Request = Request(url: string, authorization: string, model: string, messages: seq<Message>, stream: bool)

  /** What `fetch` yields: a rejection, or a response with its status flag,
      status text and body. */
  datatype Reply = FetchFailed(message: string) | Http(ok: bool, statusText: string, body: Body)

  type Network = Request -> Reply

  const OPENAI_API_URL: string := "https://api.openai.com/v1/chat/completions"
  const DEFAULT_MODEL: string := "gpt-4o-mini"
  const MISSING_KEY_ERROR: string := "API key for OpenAI is not set."
  const REQUEST_FAILED_PREFIX: string := "OpenAI API request failed: "

  /** `settings.openaiModel || 'gpt-4o-mini'` */
  function ModelOf(settings: Settings): (model: string)
    ensures !Truthy(settings.openaiModel) ==> model == DEFAULT_MODEL
    ensures Truthy(settings.openaiModel) ==> model == settings.openaiModel.value
    ensures model != ""
  {
    if Truthy(settings.openaiModel) then settings.openaiModel.value else DEFAULT_MODEL
  }

  /** What `sendOpenAIRequest` settles with for a given reply: a rejected
      fetch or a non-ok status fails before any `onProgress` call;
      otherwise the body is streamed. */
  function ReplyOutcome(reply: Reply, extract: Extractor): (o: Outcome)
    ensures reply.FetchFailed? ==> o == Outcome(Failure(reply.message), [])
    ensures reply.Http? && !reply.ok ==> o == Outcome(Failure(REQUEST_FAILED_PREFIX + reply.statusText), [])
  {
    match reply
    case FetchFailed(message) => Outcome(Failure(message), [])
    case Http(ok, statusText, body) =>
      if !ok then Outcome(Failure(REQUEST_FAILED_PREFIX + statusText), [])
      else StreamOutcome(body, extract)
  }

  /** `sendAIRequest` as a whole: the request it posts, if any, and its
      outcome. Without a truthy API key nothing is posted and nothing is
      streamed; the model falls back to `gpt-4o-mini`. */
  function Dispatch(settings: Settings, messages: seq<Message>, net: Network, extract: Extractor): (d: (Option<Request>, Outcome))
    ensures !Truthy(settings.openaiApiKey) ==> d == (None, Outcome(Failure(MISSING_KEY_ERROR), []))
    ensures Truthy(settings.openaiApiKey) ==>
              && d.0 == Some(Request(OPENAI_API_URL, "Bearer " + settings.openaiApiKey.value, ModelOf(settings), messages, true))
              && d.1 == ReplyOutcome(net(d.0.value), extract)
  {
    if !Truthy(settings.openaiApiKey) then (None, Outcome(Failure(MISSING_KEY_ERROR), []))
    else
      var request := Request(OPENAI_API_URL, "Bearer " + settings.openaiApiKey.value, ModelOf(settings), messages, true);
      (Some(request), ReplyOutcome(net(request), extract))
  }

  /** The body of the inner loop for one line: a `data: ` line whose
      payload is `[DONE]` stops the stream; any other `data: ` payload is
      parsed, and a truthy content is appended to `result` and reported to
      `onProgress`; a parse failure is swallowed. */
  method HandleLine(line: string, extract: Extractor, result0: string, progress0: seq<Progress>)
    returns (result: string, progress: seq<Progress>, stop: bool)
    ensures match Classify(line, extract)
      case Skip => result == result0 && progress == progress0 && !stop
      case Stop => result == result0 && progress == progress0 && stop
      case Emit(content) => result == result0 + content && progress == progress0 + [Partial(content)] && !stop
  {
    result, progress, stop := result0, progress0, false;
    if StartsWith(line, DATA_PREFIX) {
      var data := line[|DATA_PREFIX|..];
      if data == DONE_SENTINEL {
        stop := true;
        return;
      }
      match extract(data) {
        case Some(content) =>
          if content != "" {
            result := result + content;
            progress := progress + [Partial(content)];
          }
        case None =>
      }
    }
  }

  /** The inner `for (const line of lines)` loop over the non-blank lines
      of one chunk, left at a `[DONE]` line: what it appends to `result`,
      the `onProgress` calls it makes, and whether it stopped. */
  method ScanLines(lines: seq<string>, extract: Extractor)
    returns (appended: string, progress: seq<Progress>, stop: bool)
    ensures var d := DecodeLines(lines, extract);
      && appended == Concat(d.fragments)
      && progress == Partials(d.fragments)
      && stop == d.stopped
  {
    appended, progress, stop := "", [], false;
    assert lines[..0] == [];
    var j := 0;
    while j < |lines| && !stop
      invariant 0 <= j <= |lines|
      invariant stop == DecodeLines(lines[..j], extract).stopped
      invariant appended == Concat(DecodeLines(lines[..j], extract).fragments)
      invariant progress == Partials(DecodeLines(lines[..j], extract).fragments)
    {
      ghost var before := DecodeLines(lines[..j], extract).fragments;
      ghost var action := Classify(lines[j], extract);
      DecodeNextLine(lines, j, extract);
      appended, progress, stop := HandleLine(lines[j], extract, appended, progress);
      if action.Emit? {
        ConcatSnoc(before, action.content);
        PartialsSnoc(before, action.content);
      }
      j := j + 1;
    }
    if stop {
      StoppedLinesPrefix(lines, j, extract);
    } else {
      assert lines[..j] == lines;
    }
  }

  /** Whatever the settings and the reply, the outcome keeps the callback
      protocol of `WellFormed`. */
  lemma DispatchWellFormed(settings: Settings, messages: seq<Message>, net: Network, extract: Extractor)
    ensures WellFormed(Dispatch(settings, messages, net, extract).1)
  {
    if Truthy(settings.openaiApiKey) {
      var reply := net(Dispatch(settings, messages, net, extract).0.value);
      if reply.Http? && reply.ok {
        StreamOutcomeWellFormed(reply.body, extract);
      }
    }
  }

  /** `sendOpenAIRequest`: post the request, check the status, then read
      chunk after chunk until the body ends or a `[DONE]` line is seen;
      `onProgress(null, true)` follows the loop. */
  method SendOpenAIRequest(apiUrl: string, apiKey: string, model: string, messages: seq<Message>,
                           net: Network, extract: Extractor)
    returns (sent: Request, outcome: Outcome)
    ensures sent == Request(apiUrl, "Bearer " + apiKey, model, messages, true)
    ensures outcome == ReplyOutcome(net(sent), extract)
  {
    sent := Request(apiUrl, "Bearer " + apiKey, model, messages, true);
    var response := net(sent);
    if response.FetchFailed? {
      return sent, Outcome(Failure(response.message), []);
    }
    if !response.ok {
      return sent, Outcome(Failure(REQUEST_FAILED_PREFIX + response.statusText), []);
    }

    var chunks := response.body.chunks;
    var result := "";
    var progress: seq<Progress> := [];
    var done := false;
    var read := 0;
    while !done
      invariant 0 <= read <= |chunks|
      invariant result == Concat(DecodeChunks(chunks[..read], extract).fragments)
      invariant progress == Partials(DecodeChunks(chunks[..read], extract).fragments)
      invariant !done ==> !DecodeChunks(chunks[..read], extract).stopped
      invariant done ==> DecodeChunks(chunks[..read], extract).stopped || (read == |chunks| && response.body.end.Closed?)
      decreases |chunks| - read, if done then 0 else 1
    {
      if read == |chunks| {
        // `reader.read()` reports the end of the body, or rejects.
        assert chunks[..read] == chunks;
        if response.body.end.ReadFailed? {
          return sent, Outcome(Failure(response.body.end.message), progress);
        }
        done := true;
      } else {
        ghost var before := DecodeChunks(chunks[..read], extract).fragments;
        ghost var here := DecodeLines(Lines(chunks[read]), extract).fragments;
        DecodeNextChunk(chunks, read, extract);
        var appended, more;
        appended, more, done := ScanLines(Lines(chunks[read]), extract);
        result, progress := result + appended, progress + more;
        ConcatAppend(before, here);
        PartialsAppend(before, here);
        read := read + 1;
      }
    }
    if read < |chunks| {
      StoppedChunksIgnoreRest(chunks[..read], chunks[read..], extract);
      assert chunks[..read] + chunks[read..] == chunks;
    } else {
      assert chunks[..read] == chunks;
    }
    outcome := Outcome(Success(result), progress + [Done]);
    assert outcome == StreamOutcome(response.body, extract);
  }

  /** `sendAIRequest`: check the API key before anything is posted, default
      the model, then call `sendOpenAIRequest`. */
  method SendAIRequest(settings: Settings, messages: seq<Message>, net: Network, extract: Extractor)
    returns (sent: Option<Request>, outcome: Outcome)
    ensures (sent, outcome) == Dispatch(settings, messages, net, extract)
  {
    var apiKey := settings.openaiApiKey;
    var model := ModelOf(settings);
    if !Truthy(apiKey) {
      return None, Outcome(Failure(MISSING_KEY_ERROR), []);
    }
    var request;
    request, outcome := SendOpenAIRequest(OPENAI_API_URL, apiKey.value, model, messages, net, extract);
    sent := Some(request);
  }
}
