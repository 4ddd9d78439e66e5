/** The chat route: it serializes the stories, asks the language model when
    a key is configured, and falls back to the keyword responder when no
    key is set or the call fails. */
module ChatRoute {
  import opened Records
  import opened StoryContext
  import opened MockResponder

  /** The parsed request body; `stories` may be absent. */
  datatype ChatBody = ChatBody(messages: seq<Message>, stories: Option<seq<Story>>)

  /** What the model is given: a system prompt built around the story
      context, followed by the transcript. */
  datatype ModelRequest = ModelRequest(storyContext: string, messages: seq<Message>)

  /** The route's answer: a JSON reply, or the HTTP 500 an uncaught
      exception becomes. */
  datatype ChatResponse = Reply(message: string, warning: Option<string>) | ServerError

  const FallbackWarning := "Used fallback response (API error)"

  /** `body.stories || []`. */
  function StoriesOf(body: ChatBody): seq<Story>
  {
    if body.stories.Some? then body.stories.value else []
  }

  /** The fallback reply. The responder reads the latest message, so on an
      empty transcript it throws, and the exception escapes the route. */
  function Fallback(messages: seq<Message>, stories: seq<Story>, warning: Option<string>): ChatResponse
  {
    if |messages| > 0 then Reply(MockResponse(messages, stories), warning) else ServerError
  }

  /** The route's answer as a function of the parsed body, the configured
      key and the model call. An unparsable body leaves the transcript
      empty, so the fallback in the handler throws. */
  function ChatResult(body: Option<ChatBody>, apiKey: Option<string>,
                      complete: ModelRequest -> LlmOutcome, formatDate: string -> string): (r: ChatResponse)
    ensures r.ServerError? ==> body.None? || |body.value.messages| == 0
    ensures r.Reply? && r.warning.Some? ==> r.warning == Some(FallbackWarning)
  {
    if body.None? then ServerError
    else
      var messages := body.value.messages;
      var stories := StoriesOf(body.value);
      if !Truthy(apiKey) then Fallback(messages, stories, None)
      else match complete(ModelRequest(ContextText(stories, formatDate), messages))
        case Completed(content) => Reply(content, None)
        case Failed => Fallback(messages, stories, Some(FallbackWarning))
  }

  /** `POST`: builds the context first, then branches on the key and on
      the outcome of the model call. `request` is the call made, if any. */
  method Post(body: Option<ChatBody>, apiKey: Option<string>,
              complete: ModelRequest -> LlmOutcome, formatDate: string -> string)
    returns (response: ChatResponse, request: Option<ModelRequest>)
    ensures response == ChatResult(body, apiKey, complete, formatDate)
    ensures body.Some? && |body.value.messages| > 0 ==> response.Reply?
    ensures request.Some? <==> body.Some? && Truthy(apiKey)
    ensures request.Some? ==>
      request.value == ModelRequest(ContextText(StoriesOf(body.value), formatDate), body.value.messages)
  {
    request := None;
    if body.None? {
      return ServerError, None;
    }
    var messages := body.value.messages;
    var stories := StoriesOf(body.value);
    var storyContext := BuildStoryContext(stories, formatDate);
    if apiKey.None? || apiKey.value == "" {
      if |messages| == 0 {
        return ServerError, None;
      }
      var reply := GenerateMockResponse(messages, stories);
      return Reply(reply, None), None;
    }
    request := Some(ModelRequest(storyContext, messages));
    var outcome := complete(request.value);
    if outcome.Completed? {
      return Reply(outcome.content, None), request;
    }
    if |messages| == 0 {
      return ServerError, request;
    }
    var reply := GenerateMockResponse(messages, stories);
    response := Reply(reply, Some(FallbackWarning));
  }

  // ----- properties -----

  /** Without a key the reply is the responder's, with no warning. */
  lemma NoKeyGivesMock(body: ChatBody, apiKey: Option<string>, complete: ModelRequest -> LlmOutcome, formatDate: string -> string)
    requires !Truthy(apiKey) && |body.messages| > 0
    ensures ChatResult(Some(body), apiKey, complete, formatDate) == Reply(MockResponse(body.messages, StoriesOf(body)), None)
  {
  }

  /** The route fails only when the fallback has no latest message to read:
      an unparsable body, or an empty transcript that reaches the fallback. */
  lemma ServerErrorIff(body: Option<ChatBody>, apiKey: Option<string>, complete: ModelRequest -> LlmOutcome, formatDate: string -> string)
    ensures ChatResult(body, apiKey, complete, formatDate).ServerError? <==>
      body.None? ||
      (|body.value.messages| == 0 &&
       (!Truthy(apiKey) || complete(ModelRequest(ContextText(StoriesOf(body.value), formatDate), body.value.messages)).Failed?))
  {
  }

  /** A warning means the model call failed, and the reply is then the
      responder's over the transcript and stories already parsed. */
  lemma WarningMeansFallback(body: Option<ChatBody>, apiKey: Option<string>, complete: ModelRequest -> LlmOutcome, formatDate: string -> string)
    requires ChatResult(body, apiKey, complete, formatDate).Reply?
    requires ChatResult(body, apiKey, complete, formatDate).warning.Some?
    ensures body.Some? && Truthy(apiKey) && |body.value.messages| > 0
    ensures complete(ModelRequest(ContextText(StoriesOf(body.value), formatDate), body.value.messages)).Failed?
    ensures ChatResult(body, apiKey, complete, formatDate) ==
      Reply(MockResponse(body.value.messages, StoriesOf(body.value)), Some(FallbackWarning))
  {
  }

  /** Whenever the reply does not come from the model, it is not empty. */
  lemma FallbackNeverEmpty(body: Option<ChatBody>, apiKey: Option<string>, complete: ModelRequest -> LlmOutcome, formatDate: string -> string)
    requires ChatResult(body, apiKey, complete, formatDate).Reply?
    requires !Truthy(apiKey) || ChatResult(body, apiKey, complete, formatDate).warning.Some?
    ensures |ChatResult(body, apiKey, complete, formatDate).message| > 0
  {
  }

  /** An absent story list is treated as an empty one. */
  lemma AbsentStoriesAsEmpty(messages: seq<Message>, apiKey: Option<string>, complete: ModelRequest -> LlmOutcome, formatDate: string -> string)
    ensures ChatResult(Some(ChatBody(messages, None)), apiKey, complete, formatDate) ==
      ChatResult(Some(ChatBody(messages, Some([]))), apiKey, complete, formatDate)
  {
  }
}
