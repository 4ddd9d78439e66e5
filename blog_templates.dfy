/** The blog-post route: the prompt it sends the language model, the
    six-section markdown template it falls back to, and the choice between
    them. */
module BlogTemplates {
  import opened Records
  import opened Joined

  // ----- createPrompt -----

  const PromptPreamble := "Based on this interview, write a beautiful blog post that tells this person's story.\n"
    + "Use their own words and voice where possible, but craft it into a cohesive narrative.\n"
    + "Add a compelling title and organize it with appropriate headings.\n"
    + "Make it heartfelt and engaging for family members to read.\n\n"
    + "Interview:\n"
  const PromptTrailer := "\n\nWrite the blog post in markdown format with a title, headings, and well-structured paragraphs."
  const BlockSeparator := "\n\n"

  /** A value inside a template literal: a missing answer prints as "undefined". */
  function Rendered(a: Option<string>): string
  {
    if a.Some? then a.value else "undefined"
  }

  function PromptBlock(question: string, answer: Option<string>): string
  {
    "Q: " + question + "\nA: " + Rendered(answer)
  }

  /** `questions.map((q, i) => ...)`: one block per question, paired with
      the answer at the same index. */
  function PromptBlocks(questions: seq<string>, answers: seq<string>): (r: seq<string>)
    ensures |r| == |questions|
    ensures forall i :: 0 <= i < |questions| ==> r[i] == PromptBlock(questions[i], AnswerAt(answers, i))
  {
    seq(|questions|, i requires 0 <= i < |questions| => PromptBlock(questions[i], AnswerAt(answers, i)))
  }

  function InterviewText(questions: seq<string>, answers: seq<string>): string
  {
    Join(PromptBlocks(questions, answers), BlockSeparator)
  }

  /** `createPrompt`; with no questions the trailer directly follows the
      preamble. */
  function CreatePrompt(questions: seq<string>, answers: seq<string>): (r: string)
    ensures |questions| == 0 ==> r == PromptPreamble + PromptTrailer
  {
    assert |questions| == 0 ==> InterviewText(questions, answers) == "";
    PromptPreamble + (InterviewText(questions, answers) + PromptTrailer)
  }

  // ----- generateMockBlogPost -----

  const Title := "# A Life Well Lived: Memories and Reflections"
  const Footer := "*This story was preserved using Memory Keeper - keeping family memories alive for generations to come.*"

  /** The six sections in order: heading and the filler used when its answer is missing or empty. */
  const Sections: seq<(string, string)> := [
    ("Childhood Beginnings",
     "The memories of childhood remain vivid, filled with the sights and sounds of a simpler time."),
    ("Family Roots",
     "Family has always been the cornerstone of life, shaping values and character through the years."),
    ("Early Career",
     "The journey into the working world brought its own lessons and memorable experiences."),
    ("Turning Points",
     "Life is full of moments that change our direction, each one teaching us something valuable."),
    ("Passing It Forward",
     "The traditions and values we hold dear are meant to be shared with future generations."),
    ("Life's Greatest Lessons",
     "Through all the experiences, both joyful and challenging, wisdom emerges.")
  ]

  /** Section `i`: its heading, then `answers[i] || filler`. */
  function SectionText(heading: string, body: string): string
  {
    "## " + heading + "\n\n" + body + "\n\n"
  }

  function SectionOf(answers: seq<string>): (nat, (string, string)) -> string
  {
    (i: nat, s: (string, string)) => SectionText(s.0, Or(AnswerAt(answers, i), s.1))
  }

  function SectionsText(answers: seq<string>): string
  {
    Concat(Sections, |Sections|, SectionOf(answers))
  }

  /** `generateMockBlogPost`; the questions are accepted and not used.
      The post always opens with the title. */
  function MockBlogPost(questions: seq<string>, answers: seq<string>): (r: string)
    ensures Title <= r
  {
    PrefixOfAppend(Title, "\n\n");
    PrefixExtends(Title, Title + "\n\n", SectionsText(answers) + ("---\n\n" + Footer));
    (Title + "\n\n") + (SectionsText(answers) + ("---\n\n" + Footer))
  }

  // ----- POST -----

  datatype GenerateBody = GenerateBody(questions: seq<string>, answers: seq<string>)
  datatype BlogResponse = BlogResponse(blogPost: string, warning: Option<string>)

  const FallbackWarning := "Used fallback generation (API error)"

  /** The route's answer. A body that does not parse leaves the questions
      and answers empty and goes to the fallback; without a key the
      template is returned; with a key the model's text, or the template
      with a warning when the call fails. `complete` stands for the model
      call on a given prompt. */
  function GenerateResult(body: Option<GenerateBody>, apiKey: Option<string>, complete: string -> LlmOutcome): (r: BlogResponse)
    ensures r.warning == None || r.warning == Some(FallbackWarning)
    ensures body.Some? && !Truthy(apiKey) ==> r.warning == None
  {
    if body.None? then BlogResponse(MockBlogPost([], []), Some(FallbackWarning))
    else if !Truthy(apiKey) then BlogResponse(MockBlogPost(body.value.questions, body.value.answers), None)
    else match complete(CreatePrompt(body.value.questions, body.value.answers))
      case Completed(content) => BlogResponse(content, None)
      case Failed => BlogResponse(MockBlogPost(body.value.questions, body.value.answers), Some(FallbackWarning))
  }

  // ----- properties -----

  /** The prompt begins with the fixed preamble and ends with the fixed trailer. */
  lemma CreatePromptFrame(questions: seq<string>, answers: seq<string>)
    ensures PromptPreamble <= CreatePrompt(questions, answers)
    ensures var p := CreatePrompt(questions, answers); p[|p| - |PromptTrailer|..] == PromptTrailer
  {
    var middle := InterviewText(questions, answers);
    PrefixOfAppend(PromptPreamble, middle + PromptTrailer);
    AppendAssoc(PromptPreamble, middle, PromptTrailer);
    var front := PromptPreamble + middle;
    assert (front + PromptTrailer)[|front|..] == PromptTrailer;
  }

  /** One more question and answer add exactly one block, after a separator,
      at the end of the interview. */
  lemma CreatePromptAppend(questions: seq<string>, answers: seq<string>, q: string, a: string)
    requires |answers| == |questions|
    ensures |questions| == 0 ==> InterviewText(questions + [q], answers + [a]) == "Q: " + q + "\nA: " + a
    ensures |questions| > 0 ==>
      InterviewText(questions + [q], answers + [a]) == InterviewText(questions, answers) + ("\n\n" + ("Q: " + q + "\nA: " + a))
  {
    var old_ := PromptBlocks(questions, answers);
    var new_ := PromptBlocks(questions + [q], answers + [a]);
    assert AnswerAt(answers + [a], |questions|) == Some(a);
    forall i | 0 <= i < |questions|
      ensures new_[i] == old_[i]
    {
      assert AnswerAt(answers + [a], i) == AnswerAt(answers, i);
      assert (questions + [q])[i] == questions[i];
    }
    assert new_ == old_ + [PromptBlock(q, Some(a))];
    JoinAppend(old_, PromptBlock(q, Some(a)), BlockSeparator);
  }

  /** The piece of the interview text that question `k` contributes. */
  function PromptPiece(questions: seq<string>, answers: seq<string>, k: nat): string
    requires k < |questions|
  {
    (if k == 0 then "" else BlockSeparator) + PromptBlock(questions[k], AnswerAt(answers, k))
  }

  /** The blocks of the first `k` questions are the first `k` blocks. */
  lemma PromptBlocksPrefix(questions: seq<string>, answers: seq<string>, k: nat)
    requires k <= |questions|
    ensures PromptBlocks(questions[..k], answers) == PromptBlocks(questions, answers)[..k]
  {
  }

  /** The piece that joining adds for block `k` is the piece of question `k`. */
  lemma SeparatedPiece(questions: seq<string>, answers: seq<string>, k: nat)
    requires k < |questions|
    ensures SeparatedBy(BlockSeparator)(k, PromptBlocks(questions, answers)[k]) == PromptPiece(questions, answers, k)
  {
  }

  /** Within the interview text, the blocks appear in question order. */
  lemma InterviewInOrder(questions: seq<string>, answers: seq<string>, k: nat)
    requires k < |questions|
    ensures InterviewText(questions[..k], answers) + PromptPiece(questions, answers, k) <= InterviewText(questions, answers)
  {
    var blocks := PromptBlocks(questions, answers);
    PromptBlocksPrefix(questions, answers, k);
    ConcatOfTake(blocks, k, SeparatedBy(BlockSeparator));
    ConcatInOrder(blocks, k, |blocks|, SeparatedBy(BlockSeparator));
    SeparatedPiece(questions, answers, k);
  }

  /** Blocks appear in question order: the preamble, the blocks of the
      questions before `k`, then the block of question `k` begin the prompt. */
  lemma CreatePromptInOrder(questions: seq<string>, answers: seq<string>, k: nat)
    requires k < |questions|
    ensures PromptPreamble + (InterviewText(questions[..k], answers) + PromptPiece(questions, answers, k))
      <= CreatePrompt(questions, answers)
  {
    InterviewInOrder(questions, answers, k);
    PrefixInside(PromptPreamble, InterviewText(questions[..k], answers) + PromptPiece(questions, answers, k),
      InterviewText(questions, answers), PromptTrailer);
  }

  /** Answers past the last question never reach the prompt. */
  lemma CreatePromptIgnoresExtraAnswers(questions: seq<string>, answers: seq<string>, extra: seq<string>)
    requires |answers| >= |questions|
    ensures CreatePrompt(questions, answers + extra) == CreatePrompt(questions, answers)
  {
    forall i | 0 <= i < |questions|
      ensures AnswerAt(answers + extra, i) == AnswerAt(answers, i)
    {
      assert (answers + extra)[i] == answers[i];
    }
    assert PromptBlocks(questions, answers + extra) == PromptBlocks(questions, answers);
  }

  /** The template begins with the title, ends with the footer, and holds
      the six sections in order: section `k` is its heading followed by
      `answers[k]` when that is a non-empty string and by its filler otherwise. */
  lemma MockBlogPostLayout(questions: seq<string>, answers: seq<string>, k: nat)
    requires k < 6
    ensures Title <= MockBlogPost(questions, answers)
    ensures var p := MockBlogPost(questions, answers); p[|p| - |Footer|..] == Footer
    ensures (Title + "\n\n") + (Concat(Sections, k, SectionOf(answers))
      + SectionText(Sections[k].0, if k < |answers| && answers[k] != "" then answers[k] else Sections[k].1))
      <= MockBlogPost(questions, answers)
  {
    var head := Title + "\n\n";
    var middle := SectionsText(answers);
    var tail := "---\n\n" + Footer;
    PrefixOfAppend(Title, "\n\n");
    PrefixOfAppend(head, middle + tail);
    assert Title <= head + (middle + tail);
    AppendAssoc(head, middle, tail);
    AppendAssoc(head + middle, "---\n\n", Footer);
    var front := head + middle + "---\n\n";
    assert (front + Footer)[|front|..] == Footer;
    var section := SectionText(Sections[k].0, if k < |answers| && answers[k] != "" then answers[k] else Sections[k].1);
    assert SectionOf(answers)(k, Sections[k]) == section;
    ConcatInOrder(Sections, k, |Sections|, SectionOf(answers));
    PrefixExtends(Concat(Sections, k, SectionOf(answers)) + section, middle, tail);
    PrefixFront(head, Concat(Sections, k, SectionOf(answers)) + section, middle + tail);
  }

  /** The template ignores the questions and every answer past the sixth. */
  lemma MockBlogPostIgnoredInputs(questions: seq<string>, others: seq<string>, answers: seq<string>, extra: seq<string>)
    requires |answers| >= 6
    ensures MockBlogPost(questions, answers + extra) == MockBlogPost(others, answers)
  {
    forall i | 0 <= i < |Sections|
      ensures SectionOf(answers + extra)(i, Sections[i]) == SectionOf(answers)(i, Sections[i])
    {
      assert AnswerAt(answers + extra, i) == AnswerAt(answers, i);
    }
    ConcatAgree(Sections, |Sections|, SectionOf(answers + extra), SectionOf(answers));
  }

  /** An empty answer gets the filler, exactly as a missing one does. */
  lemma MockBlogPostEmptyAsMissing(questions: seq<string>, answers: seq<string>)
    ensures MockBlogPost(questions, answers + [""]) == MockBlogPost(questions, answers)
  {
    forall i | 0 <= i < |Sections|
      ensures SectionOf(answers + [""])(i, Sections[i]) == SectionOf(answers)(i, Sections[i])
    {
      assert Or(AnswerAt(answers + [""], i), Sections[i].1) == Or(AnswerAt(answers, i), Sections[i].1);
    }
    ConcatAgree(Sections, |Sections|, SectionOf(answers + [""]), SectionOf(answers));
  }

  /** Without a key the template comes back and there is never a warning. */
  lemma GenerateWithoutKey(body: GenerateBody, apiKey: Option<string>, complete: string -> LlmOutcome)
    requires !Truthy(apiKey)
    ensures GenerateResult(Some(body), apiKey, complete) == BlogResponse(MockBlogPost(body.questions, body.answers), None)
  {
  }

  /** A warning is given exactly when the request could not be completed by
      the model (an unparsable body, or a failed call with a key set), and
      then the post is the template over the inputs that were parsed. */
  lemma GenerateWarningIff(body: Option<GenerateBody>, apiKey: Option<string>, complete: string -> LlmOutcome)
    ensures GenerateResult(body, apiKey, complete).warning.Some? <==>
      body.None? || (Truthy(apiKey) && complete(CreatePrompt(body.value.questions, body.value.answers)).Failed?)
    ensures var r := GenerateResult(body, apiKey, complete);
      r.warning.Some? ==>
        (r.warning == Some(FallbackWarning) &&
         r.blogPost == (if body.None? then MockBlogPost([], []) else MockBlogPost(body.value.questions, body.value.answers)))
  {
  }

  /** The model's text is used exactly when a key is set and the call succeeds. */
  lemma GenerateUsesModel(body: GenerateBody, apiKey: Option<string>, complete: string -> LlmOutcome)
    requires Truthy(apiKey)
    ensures complete(CreatePrompt(body.questions, body.answers)).Completed? ==>
      GenerateResult(Some(body), apiKey, complete) == BlogResponse(complete(CreatePrompt(body.questions, body.answers)).content, None)
  {
  }
}
