/** The story-teller chat page: a transcript that starts with a greeting,
    grows by one user message per submit and by one assistant message per
    reply, and a loading flag that blocks a second submit meanwhile. */
module StoryTeller {
  import opened Records
  import opened Text
  import opened Storage

  const Greeting := "Hello! I'm here to help preserve your family memories. "
    + "Share a story, ask about traditions, or tell me about someone special in your family. "
    + "I'm here to listen and help you capture these precious moments."
  const Apology := "I apologize, but I encountered an error. Please try again."

  /** The body posted to the chat route. */
  datatype ChatRequest = ChatRequest(messages: seq<Message>, stories: seq<Story>)

  /** What the request comes back with: the reply's `message`, or failure
      (a non-ok status, an empty body, or a body that does not parse). */
  datatype ChatFetch = Answered(message: string) | FetchFailed

  /** The assistant text a fetch outcome turns into. */
  function AssistantText(outcome: ChatFetch): string
  {
    if outcome.Answered? then outcome.message else Apology
  }

  class StoryTellerView {
    var messages: seq<Message>
    var input: string
    var isLoading: bool
    var stories: seq<Story>

    constructor()
      ensures messages == [Message(Assistant, Greeting)]
      ensures input == "" && !isLoading && stories == []
    {
      messages := [Message(Assistant, Greeting)];
      input := "";
      isLoading := false;
      stories := [];
    }

    /** On mount: the stored stories, in stored order. */
    method LoadStories(store: StoryStore)
      modifies this
      ensures stories == store.stories
      ensures messages == old(messages) && input == old(input) && isLoading == old(isLoading)
    {
      stories := store.stories;
    }

    /** Typing in the input box. */
    method EditInput(text: string)
      modifies this
      ensures input == text
      ensures messages == old(messages) && isLoading == old(isLoading) && stories == old(stories)
    {
      input := text;
    }

    /** The synchronous part of `handleSubmit`, up to the request: a blank
        input or a pending reply does nothing; otherwise the trimmed input
        is appended as a user message, the input is cleared, the page is
        loading, and the request carries the new transcript and the stories. */
    method Submit() returns (request: Option<ChatRequest>)
      modifies this
      ensures stories == old(stories)
      ensures Trim(old(input)) == "" || old(isLoading) ==>
        request.None? && messages == old(messages) && input == old(input) && isLoading == old(isLoading)
      ensures Trim(old(input)) != "" && !old(isLoading) ==>
        messages == old(messages) + [Message(User, Trim(old(input)))] && input == "" && isLoading
        && request == Some(ChatRequest(messages, stories))
    {
      if Trim(input) == "" || isLoading {
        return None;
      }
      var userMessage := Trim(input);
      input := "";
      messages := messages + [Message(User, userMessage)];
      isLoading := true;
      request := Some(ChatRequest(messages, stories));
    }

    /** The rest of `handleSubmit`, once the request settles: one assistant
        message, the reply or the apology, and the page stops loading. */
    method Receive(outcome: ChatFetch)
      requires isLoading
      modifies this
      ensures messages == old(messages) + [Message(Assistant, AssistantText(outcome))]
      ensures !isLoading && input == old(input) && stories == old(stories)
    {
      messages := messages + [Message(Assistant, AssistantText(outcome))];
      isLoading := false;
    }

    /** `handleSubmit` from start to end, with `fetch` standing for the
        request: nothing on a blank input or while loading; otherwise one
        user message and then one assistant message are appended. */
    method HandleSubmit(fetch: ChatRequest -> ChatFetch) returns (request: Option<ChatRequest>)
      modifies this
      ensures stories == old(stories)
      ensures Trim(old(input)) == "" || old(isLoading) ==>
        request.None? && messages == old(messages) && input == old(input) && isLoading == old(isLoading)
      ensures Trim(old(input)) != "" && !old(isLoading) ==>
        request == Some(ChatRequest(old(messages) + [Message(User, Trim(old(input)))], stories))
        && messages == old(messages) + [Message(User, Trim(old(input))), Message(Assistant, AssistantText(fetch(request.value)))]
        && input == "" && !isLoading
    {
      request := Submit();
      if request.Some? {
        ghost var sent := messages;
        Receive(fetch(request.value));
        assert messages == sent + [Message(Assistant, AssistantText(fetch(request.value)))];
      }
    }
  }

  // ----- properties -----

  /** The assistant message is never empty when the server's reply is not. */
  lemma AssistantTextNonEmpty(outcome: ChatFetch)
    requires outcome.Answered? ==> |outcome.message| > 0
    ensures |AssistantText(outcome)| > 0
  {
  }

  /** A submitted message is never blank: it is the trimmed input, and
      trimming a non-blank input leaves text that neither starts nor ends
      with whitespace. */
  lemma SubmittedMessageIsTrimmed(input: string)
    requires Trim(input) != ""
    ensures !IsWhitespace(Trim(input)[0]) && !IsWhitespace(Trim(input)[|Trim(input)| - 1])
    ensures !AllWhitespace(input)
  {
    BlankIff(input);
    var t := TrimStart(input);
    assert Trim(input) == TrimEnd(t);
    assert Trim(input) == t[..|Trim(input)|];
    assert Trim(input)[0] == t[0];
  }
}
