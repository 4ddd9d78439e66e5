/** The context block the chat route gives the language model: every
    stored story serialized in order, each as a numbered header, then its
    blog post or its answered questions, then a delimiter. */
module StoryContext {
  import opened Records
  import opened Text
  import opened Joined

  const NoStoriesText := "No previous stories have been captured yet."
  const ContextIntro := "Here are the family stories that have been previously captured:\n\n"
  const StoryDelimiter := "---\n\n"

  /** "Story k (from <date>):" where the date is rendered by the browser's
      locale, given here as `formatDate`. */
  function Header(k: nat, story: Story, formatDate: string -> string): string
  {
    "Story " + NatToString(k) + " (from " + formatDate(story.date) + "):\n"
  }

  /** The "Q: ...\nA: ..." entry of a question, or nothing when its
      aligned answer is missing or empty. */
  function QaEntry(question: string, answer: Option<string>): string
  {
    if Truthy(answer) then "Q: " + question + "\nA: " + answer.value + "\n\n" else ""
  }

  /** The entry of the question at index `i`, paired with the answer at the same index. */
  function EntryOf(answers: seq<string>): (nat, string) -> string
  {
    (i: nat, q: string) => QaEntry(q, AnswerAt(answers, i))
  }

  /** The entries of all questions, in question order. */
  function QaEntries(story: Story): string
  {
    Concat(story.questions, |story.questions|, EntryOf(story.answers))
  }

  /** A story's blog post when it has a non-empty one; its Q/A entries otherwise. */
  function StoryBody(story: Story): string
  {
    if Truthy(story.blogPost) then story.blogPost.value + "\n\n" else QaEntries(story)
  }

  /** The block of the story at index `k`: it is numbered `k + 1`. */
  function StoryBlock(k: nat, story: Story, formatDate: string -> string): string
  {
    Header(k + 1, story, formatDate) + (StoryBody(story) + StoryDelimiter)
  }

  function BlockOf(formatDate: string -> string): (nat, Story) -> string
  {
    (k: nat, s: Story) => StoryBlock(k, s, formatDate)
  }

  /** The blocks of the first `i` stories, in input order. */
  function Blocks(stories: seq<Story>, i: nat, formatDate: string -> string): string
    requires i <= |stories|
  {
    Concat(stories, i, BlockOf(formatDate))
  }

  /** The whole context block: the fixed text for no stories, otherwise
      text that opens with the intro. */
  function ContextText(stories: seq<Story>, formatDate: string -> string): (r: string)
    ensures |stories| == 0 ==> r == NoStoriesText
    ensures |stories| > 0 ==> ContextIntro <= r
  {
    if |stories| == 0 then NoStoriesText
    else
      PrefixOfAppend(ContextIntro, Blocks(stories, |stories|, formatDate));
      ContextIntro + Blocks(stories, |stories|, formatDate)
  }

  /** The inner loop of `buildStoryContext`: appends the entry of each
      question whose aligned answer is non-empty. */
  method AppendQaEntries(context: string, story: Story) returns (c: string)
    ensures c == context + QaEntries(story)
  {
    c := context;
    var qIndex := 0;
    while qIndex < |story.questions|
      invariant 0 <= qIndex <= |story.questions|
      invariant c == context + Concat(story.questions, qIndex, EntryOf(story.answers))
    {
      var entry := "";
      if qIndex < |story.answers| && story.answers[qIndex] != "" {
        entry := "Q: " + story.questions[qIndex] + "\nA: " + story.answers[qIndex] + "\n\n";
      }
      assert entry == QaEntry(story.questions[qIndex], AnswerAt(story.answers, qIndex));
      assert entry == EntryOf(story.answers)(qIndex, story.questions[qIndex]);
      ConcatStep(story.questions, qIndex, EntryOf(story.answers));
      AppendAssoc(context, Concat(story.questions, qIndex, EntryOf(story.answers)), entry);
      c := c + entry;
      qIndex := qIndex + 1;
    }
  }

  /** The body of the outer loop of `buildStoryContext`: the text one story adds. */
  method AppendStory(context: string, index: nat, story: Story, formatDate: string -> string) returns (c: string)
    ensures c == context + StoryBlock(index, story, formatDate)
  {
    var header := Header(index + 1, story, formatDate);
    var body: string;
    if story.blogPost.Some? && story.blogPost.value != "" {
      body := story.blogPost.value + "\n\n";
    } else {
      body := AppendQaEntries("", story);
      assert "" + QaEntries(story) == QaEntries(story);
    }
    assert body == StoryBody(story);
    c := context + (header + (body + StoryDelimiter));
  }

  /** `buildStoryContext`: appends to the text inside two nested loops. */
  method BuildStoryContext(stories: seq<Story>, formatDate: string -> string) returns (context: string)
    ensures context == ContextText(stories, formatDate)
  {
    if |stories| == 0 {
      return NoStoriesText;
    }
    context := ContextIntro;
    var index := 0;
    while index < |stories|
      invariant 0 <= index <= |stories|
      invariant context == ContextIntro + Blocks(stories, index, formatDate)
    {
      ghost var before := Blocks(stories, index, formatDate);
      context := AppendStory(context, index, stories[index], formatDate);
      ConcatStep(stories, index, BlockOf(formatDate));
      AppendAssoc(ContextIntro, before, StoryBlock(index, stories[index], formatDate));
      index := index + 1;
    }
  }

  // ----- properties -----

  /** Storing one more story appends exactly its block, numbered one past
      the previous last, and leaves the earlier text untouched. */
  lemma ContextAppend(stories: seq<Story>, s: Story, formatDate: string -> string)
    requires |stories| > 0
    ensures ContextText(stories + [s], formatDate) ==
      ContextText(stories, formatDate) + StoryBlock(|stories|, s, formatDate)
  {
    ConcatStep(stories + [s], |stories|, BlockOf(formatDate));
    ConcatOfPrefix(stories, [s], |stories|, BlockOf(formatDate));
    assert (stories + [s])[|stories|] == s;
    AppendAssoc(ContextIntro, Blocks(stories, |stories|, formatDate), StoryBlock(|stories|, s, formatDate));
  }

  /** Replacing the last story changes only the last block. */
  lemma BlocksWithLastReplaced(stories: seq<Story>, s: Story, formatDate: string -> string)
    requires |stories| > 0
    ensures var n := |stories| - 1;
      Blocks(stories[..n] + [s], n + 1, formatDate) == Blocks(stories, n, formatDate) + StoryBlock(n, s, formatDate)
  {
    var n := |stories| - 1;
    var r := stories[..n] + [s];
    ConcatStep(r, n, BlockOf(formatDate));
    ConcatOfPrefix(stories[..n], [s], n, BlockOf(formatDate));
    ConcatOfPrefix(stories[..n], stories[n..], n, BlockOf(formatDate));
    assert stories[..n] + stories[n..] == stories;
    assert r[n] == s;
  }

  /** Story blocks appear in input order: the text of the stories before
      `k` followed by the block of story `k` begins the text of any longer
      run. */
  lemma BlocksInOrder(stories: seq<Story>, k: nat, n: nat, formatDate: string -> string)
    requires k < n <= |stories|
    ensures Blocks(stories, k, formatDate) + StoryBlock(k, stories[k], formatDate) <= Blocks(stories, n, formatDate)
  {
    ConcatInOrder(stories, k, n, BlockOf(formatDate));
  }

  /** Within the blocks, the header of story `k` follows the blocks of the
      stories before it. */
  lemma HeaderInBlocks(stories: seq<Story>, k: nat, formatDate: string -> string)
    requires k < |stories|
    ensures Blocks(stories, k, formatDate) + Header(k + 1, stories[k], formatDate) <= Blocks(stories, |stories|, formatDate)
  {
    var before := Blocks(stories, k, formatDate);
    var header := Header(k + 1, stories[k], formatDate);
    var rest := StoryBody(stories[k]) + StoryDelimiter;
    BlocksInOrder(stories, k, |stories|, formatDate);
    PrefixOfAppend(header, rest);
    PrefixFront(before, header, header + rest);
  }

  /** Every block ends with the delimiter. */
  lemma BlockEndsWithDelimiter(k: nat, story: Story, formatDate: string -> string)
    ensures var b := StoryBlock(k, story, formatDate); b[|b| - |StoryDelimiter|..] == StoryDelimiter
  {
    var front := Header(k + 1, story, formatDate) + StoryBody(story);
    AppendAssoc(Header(k + 1, story, formatDate), StoryBody(story), StoryDelimiter);
    assert (front + StoryDelimiter)[|front|..] == StoryDelimiter;
  }

  /** One header per story: the context begins with the intro, the blocks
      of the stories before `k` and then the header of story `k`, numbered
      `k + 1`. */
  lemma ContextHeaders(stories: seq<Story>, k: nat, formatDate: string -> string)
    requires k < |stories|
    ensures ContextIntro + (Blocks(stories, k, formatDate) + Header(k + 1, stories[k], formatDate)) <= ContextText(stories, formatDate)
  {
    HeaderInBlocks(stories, k, formatDate);
    PrefixFront(ContextIntro, Blocks(stories, k, formatDate) + Header(k + 1, stories[k], formatDate), Blocks(stories, |stories|, formatDate));
  }

  /** A story with no non-empty answer contributes no Q/A entry. */
  lemma QaEntriesOfUnanswered(story: Story)
    requires forall j :: 0 <= j < |story.answers| ==> story.answers[j] == ""
    ensures QaEntries(story) == ""
  {
    ConcatOfEmptyPieces(story.questions, |story.questions|, EntryOf(story.answers));
  }

  /** Answers beyond the last question are never serialized. */
  lemma QaEntriesIgnoreExtraAnswers(story: Story, extra: seq<string>)
    requires |story.answers| >= |story.questions|
    ensures QaEntries(story.(answers := story.answers + extra)) == QaEntries(story)
  {
    var longer := story.answers + extra;
    forall j | 0 <= j < |story.questions|
      ensures EntryOf(longer)(j, story.questions[j]) == EntryOf(story.answers)(j, story.questions[j])
    {
      assert AnswerAt(longer, j) == AnswerAt(story.answers, j);
    }
    ConcatAgree(story.questions, |story.questions|, EntryOf(longer), EntryOf(story.answers));
  }

  /** A non-empty blog post replaces the Q/A entries entirely: the body no
      longer depends on the questions or answers. */
  lemma BlogPostReplacesAnswers(story: Story, questions: seq<string>, answers: seq<string>)
    requires Truthy(story.blogPost)
    ensures StoryBody(story.(questions := questions, answers := answers)) == StoryBody(story)
    ensures StoryBody(story) == story.blogPost.value + "\n\n"
  {
  }

  /** The number in a header is the story's position plus one: the
      header starts with "Story ", the digits right after it read back as
      `k + 1`, and the " (from " that closes the number follows them. */
  lemma HeaderNumber(k: nat, story: Story, formatDate: string -> string)
    ensures Header(k + 1, story, formatDate)[..6] == "Story "
    ensures Header(k + 1, story, formatDate)[6..6 + |NatToString(k + 1)|] == NatToString(k + 1)
    ensures var h := Header(k + 1, story, formatDate);
      var digits := h[6..6 + |NatToString(k + 1)|];
      (forall i :: 0 <= i < |digits| ==> '0' <= digits[i] <= '9') && DigitsValue(digits) == k + 1
    ensures var h := Header(k + 1, story, formatDate);
      " (from " <= h[6 + |NatToString(k + 1)|..]
  {
    var n := NatToString(k + 1);
    var x := "Story " + n;
    var d := formatDate(story.date);
    AppendAssoc(x, " (from ", d);
    AppendAssoc(x, " (from " + d, "):\n");
    var rest := (" (from " + d) + "):\n";
    assert Header(k + 1, story, formatDate) == "Story " + n + rest;
    MiddleOf("Story ", n, rest);
    PrefixOfAppend(" (from ", d);
    PrefixExtends(" (from ", " (from " + d, "):\n");
    NatToStringRoundTrip(k + 1);
  }
}
