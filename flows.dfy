/** How the pages and the routes fit together: what a page sends is what
    the route reads, and what the route answers is what the page shows or
    stores. */
module Flows {
  import opened Records
  import opened Text
  import opened Joined
  import opened StoryContext
  import opened ChatRoute
  import opened StoryTeller
  import opened GeneratePage

  /** How the page reads the route's answer: an HTTP 500 is a failed fetch. */
  function FetchOf(response: ChatResponse): ChatFetch
  {
    if response.Reply? then Answered(response.message) else StoryTeller.FetchFailed
  }

  /** The route's view of what the page posts. */
  function BodyOf(request: ChatRequest): ChatBody
  {
    ChatBody(request.messages, Some(request.stories))
  }

  /** The page never posts an empty transcript, so the route always
      replies and the page shows the route's message rather than the apology. */
  lemma PageRequestsAreAnswered(request: ChatRequest, apiKey: Option<string>,
                                complete: ModelRequest -> LlmOutcome, formatDate: string -> string)
    requires |request.messages| > 0
    ensures ChatResult(Some(BodyOf(request)), apiKey, complete, formatDate).Reply?
    ensures AssistantText(FetchOf(ChatResult(Some(BodyOf(request)), apiKey, complete, formatDate))) ==
      ChatResult(Some(BodyOf(request)), apiKey, complete, formatDate).message
  {
    ServerErrorIff(Some(BodyOf(request)), apiKey, complete, formatDate);
  }

  /** Once a non-empty post is attached to the latest story, the chat
      context serializes that story by its post instead of its answers. */
  lemma AttachedPostReachesContext(stories: seq<Story>, post: string, at: string, formatDate: string -> string)
    requires |stories| > 0 && post != ""
    ensures var r := AttachBlogPost(stories, post, at);
      var n := |stories| - 1;
      ContextText(r, formatDate) ==
        ContextIntro + (Blocks(stories, n, formatDate)
          + (Header(n + 1, r[n], formatDate) + ((post + "\n\n") + StoryDelimiter)))
  {
    var r := AttachBlogPost(stories, post, at);
    var n := |stories| - 1;
    BlocksWithLastReplaced(stories, r[n], formatDate);
    assert r == stories[..n] + [r[n]];
    assert StoryBody(r[n]) == post + "\n\n";
  }
}
