/** The generate page: on opening it sends the latest stored interview to
    the blog-post route and attaches the returned post to that story. */
module GeneratePage {
  import opened Records
  import opened Storage

  const NoStoriesError := "No stories found. Please complete an interview first."
  const FailedError := "Failed to generate blog post. Please try again."

  /** The request body: the latest story's questions and answers. */
  datatype GenerateRequest = GenerateRequest(questions: seq<string>, answers: seq<string>)

  /** What the request comes back with: the post, or failure (a non-ok
      status, or any exception while fetching or parsing). */
  datatype GenerateFetch = Generated(blogPost: string) | FetchFailed

  /** The stored list after the latest story gains (or has overwritten)
      its blog post and the time it was generated. */
  function AttachBlogPost(stories: seq<Story>, post: string, at: string): (r: seq<Story>)
    requires |stories| > 0
    ensures |r| == |stories|
    ensures r[..|r| - 1] == stories[..|stories| - 1]
    ensures r[|r| - 1].blogPost == Some(post) && r[|r| - 1].generatedAt == Some(at)
    ensures var last := stories[|stories| - 1];
      r[|r| - 1] == Story(last.id, last.date, last.questions, last.answers, Some(post), Some(at))
  {
    var last := stories[|stories| - 1];
    stories[..|stories| - 1] + [last.(blogPost := Some(post), generatedAt := Some(at))]
  }

  class GenerateView {
    const store: StoryStore
    var isGenerating: bool
    var blogPost: string
    var error: string

    constructor(store: StoryStore)
      ensures this.store == store && !isGenerating && blogPost == "" && error == ""
    {
      this.store := store;
      isGenerating := false;
      blogPost := "";
      error := "";
    }

    /** `generateBlogPost`. `fetch` stands for the request to the route;
        `request` is the request made, if any; `isoNow` is the time of the
        reply. */
    method GenerateBlogPost(fetch: GenerateRequest -> GenerateFetch, isoNow: string)
      returns (request: Option<GenerateRequest>)
      modifies this, store
      ensures !isGenerating
      ensures |old(store.stories)| == 0 ==>
        request.None? && error == NoStoriesError && blogPost == old(blogPost) && store.stories == old(store.stories)
      ensures |old(store.stories)| > 0 ==>
        var latest := old(store.stories)[|old(store.stories)| - 1];
        request == Some(GenerateRequest(latest.questions, latest.answers))
      ensures request.Some? && fetch(request.value).Generated? ==>
        var post := fetch(request.value).blogPost;
        blogPost == post && error == "" && store.stories == AttachBlogPost(old(store.stories), post, isoNow)
      ensures request.Some? && fetch(request.value).FetchFailed? ==>
        error == FailedError && blogPost == old(blogPost) && store.stories == old(store.stories)
    {
      isGenerating := true;
      error := "";
      var stories := store.stories;
      if |stories| == 0 {
        error := NoStoriesError;
        isGenerating := false;
        return None;
      }
      var latest := stories[|stories| - 1];
      request := Some(GenerateRequest(latest.questions, latest.answers));
      var outcome := fetch(request.value);
      if outcome.Generated? {
        blogPost := outcome.blogPost;
        store.stories := AttachBlogPost(stories, outcome.blogPost, isoNow);
      } else {
        error := FailedError;
      }
      isGenerating := false;
    }
  }

  // ----- properties -----

  /** Generating again overwrites the earlier post: only the latest attach counts. */
  lemma AttachOverwrites(stories: seq<Story>, p1: string, a1: string, p2: string, a2: string)
    requires |stories| > 0
    ensures AttachBlogPost(AttachBlogPost(stories, p1, a1), p2, a2) == AttachBlogPost(stories, p2, a2)
  {
    var once := AttachBlogPost(stories, p1, a1);
    assert once[..|once| - 1] == stories[..|stories| - 1];
  }

  /** Every story but the latest is kept, in the same order, and the
      latest keeps its id, date, questions and answers. */
  lemma AttachKeepsOthers(stories: seq<Story>, post: string, at: string, i: nat)
    requires i < |stories|
    ensures var r := AttachBlogPost(stories, post, at);
      (i < |stories| - 1 ==> r[i] == stories[i]) &&
      r[i].id == stories[i].id && r[i].date == stories[i].date &&
      r[i].questions == stories[i].questions && r[i].answers == stories[i].answers
  {
    var r := AttachBlogPost(stories, post, at);
    if i < |stories| - 1 {
      assert r[i] == r[..|r| - 1][i];
    }
  }
}
