# Memory Keeper, modelled in Dafny

Memory Keeper is a small Next.js app that helps families preserve their memories. It has these parts:

- An interview page asks six questions drawn at random from a pool, one at a time. On completion it stores the answers as a story in the browser's `localStorage`.
- A stories page lists the stored stories newest first and deletes them by id.
- A generate page sends the latest story to a blog-post route and attaches the returned post to that story.
- A story-teller page holds a chat whose replies come from a chat route.
- Both routes ask a hosted language model when an API key is configured. Otherwise, or when the call fails, they fall back to deterministic text:
  - the chat route uses a keyword-driven responder that recalls stored answers;
  - the blog route uses a fixed six-section markdown template.

The model covers:

- both routes' text builders and their mode switches;
- the four page handlers that change state.

A class holds the state each page updates in place. Pure text and search logic become functions. Where the source uses loops, methods run the same loops and are proved equal to those functions.

| file | module | models |
|---|---|---|
| records.dfy | `Records` | the `Story` and `Message` records, JavaScript truthiness, `answers[i]` past the end, `a \|\| b` |
| text.dfy | `Text` | `includes`, ASCII `toLowerCase`, ECMAScript `trim`, decimal rendering of a number |
| search.dfy | `Search` | a generic first-match scan |
| joined.dfy | `Joined` | text built by appending one piece per element, and `join` |
| storage.dfy | `Storage` | the `memoryKeeperStories` entry, as a class holding `seq<Story>` |
| story_context.dfy | `StoryContext` | `buildStoryContext` |
| mock_responder.dfy, responder_lemmas.dfy | `MockResponder`, `ResponderLemmas` | `generateMockResponse` and what it promises |
| chat_route.dfy | `ChatRoute` | the chat route's `POST` |
| blog_templates.dfy | `BlogTemplates` | `createPrompt`, `generateMockBlogPost`, and the blog route's `POST` |
| interview.dfy | `Interview` | question selection and the interview state machine |
| stories_page.dfy | `StoriesPage` | load-and-reverse, `deleteStory`, and the selection |
| generate_page.dfy | `GeneratePage` | `generateBlogPost` |
| story_teller.dfy | `StoryTeller` | the initial transcript and `handleSubmit` |
| flows.dfy | `Flows` | how a page's request meets the route's answer |

Some inputs are parameters, and the model says nothing about their values:

- The language-model call is `complete`, which maps a request to `Completed(text)` or `Failed`.
- A page's `fetch` maps a request to a reply or to failure.
- `toLocaleDateString` is `formatDate`.
- `Date.now()` and `toISOString()` are `now` and `isoNow`.
- The random shuffle is any permutation of the pool.

Four behaviours of the code the model keeps:

- The mock blog post uses `answers[i] || filler`, so an empty answer gets the filler just as a missing one does.
- With an empty transcript, `generateMockResponse` throws at its first line. It throws again inside the route's `catch`, so the route answers with HTTP 500. The model has this as `ChatRoute.ServerError`.
- A body that fails to parse leaves the blog route's `questions` and `answers` as `[]`. The route then returns the template over no answers, with the warning.
- `createPrompt` prints the JavaScript text `undefined` for a question without an aligned answer. The model renders it that way rather than demanding as many answers as questions.

## Model

| member | source | states |
|---|---|---|
| Text.ToLower | memory-keeper/app/api/chat/route.ts:110 | lowercasing keeps the length, leaves no capital letter, turns each capital into the small letter at the same place in the alphabet, and keeps every other character (ASCII letters only) |
| Text.ToLowerAppend | memory-keeper/app/api/chat/route.ts:110 | lowercasing distributes over concatenation |
| Text.Contains | memory-keeper/app/api/chat/route.ts:116-117 | `includes` always holds for a prefix and never for a needle longer than the text; `Text.ContainsIff` states the whole meaning |
| Text.ContainsIff | memory-keeper/app/api/chat/route.ts:116-117 | `includes` holds exactly when the needle occurs at some index |
| Text.TrimStart | memory-keeper/app/story-teller/page.tsx:48-50 | the result is a suffix of the input; what it drops is all whitespace; the result does not start with whitespace |
| Text.TrimEnd | memory-keeper/app/story-teller/page.tsx:48-50 | the result is a prefix of the input; what it drops is all whitespace; the result does not end with whitespace |
| Text.Trim | memory-keeper/app/story-teller/page.tsx:48-50 | `trim()` never lengthens the text, and what it returns neither starts nor ends with whitespace; `Text.TrimShape` and `Text.BlankIff` state the rest |
| Text.TrimShape | memory-keeper/app/story-teller/page.tsx:50 | the input is the trimmed text with only whitespace on either side |
| Text.BlankIff | memory-keeper/app/story-teller/page.tsx:48 | `!input.trim()` holds exactly when every character is whitespace |
| Text.NatToString | memory-keeper/app/api/chat/route.ts:26 | `${index + 1}` is a non-empty string of decimal digits, with no leading zero unless the number is 0 |
| Text.NatToStringRoundTrip | memory-keeper/app/api/chat/route.ts:26 | reading the rendered digits back gives the number |
| Search.FirstSomeNone | memory-keeper/app/api/chat/route.ts:118-126 | a first-match scan finds nothing exactly when every element misses |
| Search.FirstSomeAt | memory-keeper/app/api/chat/route.ts:118-126 | a hit with only misses before it is what the scan returns |
| Search.FirstSomeWitness | memory-keeper/app/api/chat/route.ts:118-126 | what the scan returns comes from an element that hits, and every earlier element misses |
| Search.FirstSomeAppend | memory-keeper/app/api/chat/route.ts:136-143 | first match wins: a hit in the front part hides everything after it |
| Joined.ConcatOfPrefix | memory-keeper/app/api/chat/route.ts:25-38 | text built from the first `i` elements depends only on those elements |
| Joined.ConcatAgree | memory-keeper/app/api/chat/route.ts:25-38 | piece functions that agree on the covered elements build the same text |
| Joined.ConcatOfEmptyPieces | memory-keeper/app/api/chat/route.ts:31-35 | elements whose pieces are empty contribute nothing |
| Joined.ConcatInOrder | memory-keeper/app/api/chat/route.ts:25-38 | pieces appear in element order: the text up to element `k`, then piece `k`, begins the text of any longer run |
| Joined.JoinAppend | memory-keeper/app/api/generate/route.ts:60-62 | `join` of one more part appends the separator and then the part, or just the part when there was none before |
| StoryContext.AppendQaEntries | memory-keeper/app/api/chat/route.ts:31-35 | the inner loop appends the "Q: …\nA: …" entry of every question whose aligned answer is non-empty, in question order |
| StoryContext.AppendStory | memory-keeper/app/api/chat/route.ts:26-37 | one pass of the outer loop appends the story's header, then its blog post or its entries, then the delimiter |
| StoryContext.ContextText | memory-keeper/app/api/chat/route.ts:18-41 | no stories give the fixed "No previous stories have been captured yet."; otherwise the text opens with the intro; the block lemmas below state the rest |
| StoryContext.BuildStoryContext | memory-keeper/app/api/chat/route.ts:18-41 | an empty list gives "No previous stories have been captured yet."; otherwise the intro followed by one block per story, in input order |
| StoryContext.ContextAppend | memory-keeper/app/api/chat/route.ts:25-38 | one more story appends exactly its block, numbered one past the last, and leaves the earlier text unchanged |
| StoryContext.BlocksWithLastReplaced | memory-keeper/app/api/chat/route.ts:25-38 | replacing the last story changes only the last block |
| StoryContext.BlocksInOrder | memory-keeper/app/api/chat/route.ts:25-38 | story blocks appear in input order |
| StoryContext.HeaderInBlocks | memory-keeper/app/api/chat/route.ts:26 | the header of story `k` directly follows the blocks of the stories before it |
| StoryContext.ContextHeaders | memory-keeper/app/api/chat/route.ts:23-38 | the context begins with the intro, the blocks of the stories before `k`, then the header "Story k+1 (from …)" |
| StoryContext.HeaderNumber | memory-keeper/app/api/chat/route.ts:26 | a header starts with "Story "; the digits after it are the rendered number, read back as the one-based position of the story; " (from " follows them |
| StoryContext.BlockEndsWithDelimiter | memory-keeper/app/api/chat/route.ts:37 | every story block ends with "---\n\n" |
| StoryContext.QaEntriesOfUnanswered | memory-keeper/app/api/chat/route.ts:32-34 | a story whose answers are all empty contributes no entry |
| StoryContext.QaEntriesIgnoreExtraAnswers | memory-keeper/app/api/chat/route.ts:31-35 | answers past the last question are never serialized |
| StoryContext.BlogPostReplacesAnswers | memory-keeper/app/api/chat/route.ts:28-29 | a non-empty blog post is contributed verbatim, and the questions and answers then have no effect |
| MockResponder.FindIndex | memory-keeper/app/api/chat/route.ts:136-138 | `findIndex`: -1 exactly when no question mentions a keyword; otherwise the first question that does |
| MockResponder.DefaultReply | memory-keeper/app/api/chat/route.ts:182-193 | every canned reply is non-empty |
| MockResponder.ContinuationAnswer | memory-keeper/app/api/chat/route.ts:116-130 | the continuation rule's reply is non-empty |
| MockResponder.KeywordReply | memory-keeper/app/api/chat/route.ts:134-193 | the reply of the rules after the continuation rule is non-empty |
| MockResponder.MockResponse | memory-keeper/app/api/chat/route.ts:109-194 | the responder's reply to a non-empty transcript is never empty |
| MockResponder.ScanLongAnswer | memory-keeper/app/api/chat/route.ts:118-126 | the nested loops return the first answer longer than `n`, stories in order and answers in order, or nothing |
| MockResponder.ScanTopic | memory-keeper/app/api/chat/route.ts:136-143 | a topic rule's loop returns the answer of the first story whose first matching question has a non-empty aligned answer |
| MockResponder.GenerateMockResponse | memory-keeper/app/api/chat/route.ts:109-131 | the function as the source runs it equals the rule cascade |
| MockResponder.RespondToKeywords | memory-keeper/app/api/chat/route.ts:133-193 | the topic, recall and default rules as the source runs them equal the cascade after the continuation rule |
| ResponderLemmas.FirstLongAnswerNone | memory-keeper/app/api/chat/route.ts:118-126 | no long answer is found exactly when every answer of every story is at most `n` characters |
| ResponderLemmas.FirstLongAnswerFound | memory-keeper/app/api/chat/route.ts:118-126 | a long answer that is found sits at some story `i` and answer `j`, and every answer before it in scan order is short |
| ResponderLemmas.FirstLongAnswerAt | memory-keeper/app/api/chat/route.ts:118-126 | the first long answer in scan order is the one found |
| ResponderLemmas.TopicAnswerOfIff | memory-keeper/app/api/chat/route.ts:136-143 | a story offers answer `a` exactly when `a` is the non-empty answer aligned with its FIRST matching question |
| ResponderLemmas.TopicAnswerAt | memory-keeper/app/api/chat/route.ts:136-143 | the first story that offers an answer provides the topic's answer |
| ResponderLemmas.TopicAnswerAppend | memory-keeper/app/api/chat/route.ts:136-143 | stories after one that offers an answer are never consulted |
| ResponderLemmas.TopicAnswerNone | memory-keeper/app/api/chat/route.ts:136-143 | a topic finds nothing exactly when no story offers an answer |
| ResponderLemmas.ContinuationRetells | memory-keeper/app/api/chat/route.ts:114-127 | when the continuation rule fires, the reply retells the first answer longer than 50 characters |
| ResponderLemmas.ContinuationWithoutMemory | memory-keeper/app/api/chat/route.ts:128-130 | when the continuation rule fires and no answer is longer than 50 characters, the reply is the fixed apology |
| ResponderLemmas.ReplyLeads | memory-keeper/app/api/chat/route.ts:141-175 | the childhood, family, tradition and recall replies begin with "Ah, my childhood... ", "When I think about my family... ", "The traditions we hold dear... " and "I remember when " |
| ResponderLemmas.ChildhoodLead | memory-keeper/app/api/chat/route.ts:141 | the childhood reply begins with "Ah, my childhood... " |
| ResponderLemmas.FamilyLead | memory-keeper/app/api/chat/route.ts:153 | the family reply begins with "When I think about my family... " |
| ResponderLemmas.TraditionLead | memory-keeper/app/api/chat/route.ts:165 | the tradition reply begins with "The traditions we hold dear... " |
| ResponderLemmas.RecallLead | memory-keeper/app/api/chat/route.ts:175 | the recall reply begins with "I remember when " |
| ResponderLemmas.DefaultLeads | memory-keeper/app/api/chat/route.ts:182-193 | no canned reply begins with the letter that starts the continuation reply |
| ResponderLemmas.OtherRepliesDoNotStartWithL | memory-keeper/app/api/chat/route.ts:133-193 | outside the continuation rule, no reply begins with the letter that starts the continuation reply |
| ResponderLemmas.ContinuationOnlyWhenInvited | memory-keeper/app/api/chat/route.ts:114-118 | a continuation reply means the latest message is a follow-up and the message two back, in a transcript of more than two messages, contains "would you like to hear more" |
| ResponderLemmas.FamilyFirstStoryWins | memory-keeper/app/api/chat/route.ts:146-156 | when the childhood rule does not apply and the family rule does, the first story's family answer is retold |
| ResponderLemmas.ChildhoodBeforeFamily | memory-keeper/app/api/chat/route.ts:134-144 | a childhood question with a childhood answer is answered by the childhood rule, whatever the other rules would say |
| ResponderLemmas.RecallRetells | memory-keeper/app/api/chat/route.ts:171-179 | when no earlier rule applies and the message asks to recall, the first answer longer than 30 characters is retold |
| ResponderLemmas.NoStoriesGivesStaticText | memory-keeper/app/api/chat/route.ts:109-194 | with no stories, every reply is fixed text chosen by keyword |
| ResponderLemmas.DefaultDependsOnStoriesOnlyForFamily | memory-keeper/app/api/chat/route.ts:182-193 | the canned reply depends on whether stories exist exactly when the family branch is taken |
| ResponderLemmas.ContainsMiddle | memory-keeper/app/api/chat/route.ts:117 | a string includes any piece it is built around |
| ResponderLemmas.ChildhoodReplyInvitesContinuation | memory-keeper/app/api/chat/route.ts:114-140 | a "yes" after the childhood reply, in a transcript of more than two messages, triggers the continuation rule |
| ChatRoute.Post | memory-keeper/app/api/chat/route.ts:43-107 | the handler's answer is the route's result; a parsed non-empty transcript always gets a reply; the model is called exactly when the body parsed and a key is set, with the story context and the transcript |
| ChatRoute.ChatResult | memory-keeper/app/api/chat/route.ts:43-107 | the route fails only on an unparsable body or an empty transcript, and its only warning is "Used fallback response (API error)"; the lemmas below state each branch |
| ChatRoute.NoKeyGivesMock | memory-keeper/app/api/chat/route.ts:56-62 | without a key, the reply is the responder's, with no warning |
| ChatRoute.ServerErrorIff | memory-keeper/app/api/chat/route.ts:43-110 | the route fails exactly when the body does not parse, or when an empty transcript reaches the responder |
| ChatRoute.WarningMeansFallback | memory-keeper/app/api/chat/route.ts:98-106 | a warning means a key was set and the model call failed; the reply is then the responder's over the already-parsed messages and stories, with "Used fallback response (API error)" |
| ChatRoute.FallbackNeverEmpty | memory-keeper/app/api/chat/route.ts:56-106 | a reply that does not come from the model is never empty |
| ChatRoute.AbsentStoriesAsEmpty | memory-keeper/app/api/chat/route.ts:50 | an absent story list acts as an empty one |
| BlogTemplates.CreatePromptFrame | memory-keeper/app/api/generate/route.ts:64-72 | the prompt begins with the fixed preamble and ends with the fixed trailer |
| BlogTemplates.CreatePromptAppend | memory-keeper/app/api/generate/route.ts:60-62 | one more question and answer add exactly one block, after "\n\n" |
| BlogTemplates.InterviewInOrder | memory-keeper/app/api/generate/route.ts:60-62 | the interview's blocks appear in question order |
| BlogTemplates.CreatePromptInOrder | memory-keeper/app/api/generate/route.ts:59-73 | the preamble, the blocks of the questions before `k`, then block `k` begin the prompt |
| BlogTemplates.CreatePromptIgnoresExtraAnswers | memory-keeper/app/api/generate/route.ts:60-62 | answers past the last question never reach the prompt |
| BlogTemplates.CreatePrompt | memory-keeper/app/api/generate/route.ts:59-73 | with no questions the prompt is the preamble directly followed by the trailer; the lemmas beside it state the layout |
| BlogTemplates.MockBlogPost | memory-keeper/app/api/generate/route.ts:75-105 | the template always opens with the title; `BlogTemplates.MockBlogPostLayout` states the sections and the footer |
| BlogTemplates.MockBlogPostLayout | memory-keeper/app/api/generate/route.ts:75-105 | the post begins with the title and ends with the footer; section `k` comes in fixed order, with its heading, then `answers[k]` when that is a non-empty string and its filler otherwise |
| BlogTemplates.MockBlogPostIgnoredInputs | memory-keeper/app/api/generate/route.ts:75-104 | the questions and every answer past the sixth have no effect |
| BlogTemplates.MockBlogPostEmptyAsMissing | memory-keeper/app/api/generate/route.ts:80-100 | an empty answer gets the filler, exactly as a missing one does |
| BlogTemplates.GenerateWithoutKey | memory-keeper/app/api/generate/route.ts:14-19 | without a key the response is the template, with no warning |
| BlogTemplates.GenerateWarningIff | memory-keeper/app/api/generate/route.ts:4-57 | a warning appears exactly when the body does not parse or the model call fails with a key set; the post is then the template over what was parsed, with "Used fallback generation (API error)" |
| BlogTemplates.GenerateUsesModel | memory-keeper/app/api/generate/route.ts:27-46 | with a key and a successful call, the response is the model's text with no warning |
| BlogTemplates.GenerateResult | memory-keeper/app/api/generate/route.ts:4-57 | the only warning is "Used fallback generation (API error)", and there is none when a parsed body meets no key |
| Interview.SelectQuestions | memory-keeper/app/interview/page.tsx:153-156 | `min(count, pool size)` questions, each from the pool, none repeated when the pool has no repeats |
| Interview.PermutationMembers | memory-keeper/app/interview/page.tsx:154 | a shuffle of the pool has the pool's size and only the pool's elements |
| Interview.DistinctOfPermutation | memory-keeper/app/interview/page.tsx:154-155 | a shuffle of a pool without repeats has no repeats |
| Interview.InterviewSession.constructor | memory-keeper/app/interview/page.tsx:160-165 | a session starts on question 0, with one empty answer per question, an empty answer box, and not complete |
| Interview.InterviewSession.EditAnswer | memory-keeper/app/interview/page.tsx:342 | typing replaces the answer box and nothing else |
| Interview.InterviewSession.HandleNext | memory-keeper/app/interview/page.tsx:228-248 | the answer box is written at the current index only; before the last question the cursor moves one on and loads the stored answer there; on the last question exactly one story is appended with the session's questions and the updated answers, and the session is complete |
| Interview.InterviewSession.HandlePrevious | memory-keeper/app/interview/page.tsx:250-258 | nothing happens at question 0; otherwise the answer box is saved, the cursor moves one back, and the stored answer there is loaded |
| Interview.AnswerAll | memory-keeper/app/interview/page.tsx:160-248 | answering every question in turn appends exactly one story holding the questions and the typed answers, after the stories already stored |
| StoriesPage.Reverse | memory-keeper/app/stories/page.tsx:22 | element `i` of the result is element `n-1-i` of the input |
| StoriesPage.ReverseInPlace | memory-keeper/app/stories/page.tsx:22 | `array.reverse()` in place leaves the array reversed |
| StoriesPage.Reversed | memory-keeper/app/stories/page.tsx:20-22 | reversing a copy through an array gives the reversed list |
| StoriesPage.WithoutId | memory-keeper/app/stories/page.tsx:36 | the filter keeps exactly the stories whose id differs |
| StoriesPage.StoriesView.constructor | memory-keeper/app/stories/page.tsx:16-17 | the page starts with an empty list and no selection |
| StoriesPage.StoriesView.Load | memory-keeper/app/stories/page.tsx:19-22 | on mount the list shown is the stored list, newest first |
| StoriesPage.StoriesView.Select | memory-keeper/app/stories/page.tsx:105 | clicking a card selects it and leaves the list unchanged |
| StoriesPage.StoriesView.DeleteStory | memory-keeper/app/stories/page.tsx:33-43 | declining changes nothing; confirming stores the filtered list, shows it newest first, and clears the selection only when it has the deleted id |
| StoriesPage.ReverseReverse | memory-keeper/app/stories/page.tsx:20-38 | reversing twice gives the list back |
| StoriesPage.ReverseAppend | memory-keeper/app/stories/page.tsx:22 | reversal maps a concatenation to the reversed parts in the other order |
| StoriesPage.WithoutIdAppend | memory-keeper/app/stories/page.tsx:36 | the filter distributes over concatenation, so the survivors keep their stored order |
| StoriesPage.WithoutIdAbsent | memory-keeper/app/stories/page.tsx:36 | deleting an id that no story has changes nothing |
| StoriesPage.WithoutIdIdempotent | memory-keeper/app/stories/page.tsx:36 | deleting the same id twice is the same as deleting it once |
| StoriesPage.WithoutIdReverse | memory-keeper/app/stories/page.tsx:20-38 | the list shown after a delete is the list shown before it, without the deleted stories |
| Storage.StoryStore.constructor | memory-keeper/app/stories/page.tsx:20 | a store holds the list it is given |
| GeneratePage.GenerateView.constructor | memory-keeper/app/generate/page.tsx:8-10 | the page starts not generating, with no post and no error |
| GeneratePage.GenerateView.GenerateBlogPost | memory-keeper/app/generate/page.tsx:16-58 | an empty store sets the "No stories found" error, sends nothing and writes nothing; otherwise the latest story's questions and answers are sent; success shows the post and attaches it; failure sets the fixed error and writes nothing; the page is never left generating |
| GeneratePage.AttachOverwrites | memory-keeper/app/generate/page.tsx:48-49 | generating again overwrites the earlier post |
| GeneratePage.AttachKeepsOthers | memory-keeper/app/generate/page.tsx:46-50 | every story but the latest is written back unchanged and in order |
| StoryTeller.StoryTellerView.constructor | memory-keeper/app/story-teller/page.tsx:21-29 | the transcript starts as exactly one assistant greeting, with the input empty and nothing loading |
| StoryTeller.StoryTellerView.LoadStories | memory-keeper/app/story-teller/page.tsx:33-36 | on mount the stories are the stored list in stored order |
| StoryTeller.StoryTellerView.EditInput | memory-keeper/app/story-teller/page.tsx:156 | typing replaces the input and nothing else |
| StoryTeller.StoryTellerView.Submit | memory-keeper/app/story-teller/page.tsx:46-63 | a blank input or a pending reply changes nothing; otherwise the trimmed input is appended as one user message, the input is cleared, the page is loading, and the request carries the new transcript and the stories |
| StoryTeller.StoryTellerView.Receive | memory-keeper/app/story-teller/page.tsx:65-84 | exactly one assistant message is appended, the reply or the apology, and the page stops loading |
| StoryTeller.StoryTellerView.HandleSubmit | memory-keeper/app/story-teller/page.tsx:46-85 | the whole submit: nothing on the guard; otherwise one user message with the trimmed input and then one assistant message, the input cleared, and not loading |
| StoryTeller.AssistantTextNonEmpty | memory-keeper/app/story-teller/page.tsx:65-81 | the assistant message is never empty when the server's reply is not |
| StoryTeller.SubmittedMessageIsTrimmed | memory-keeper/app/story-teller/page.tsx:48-52 | a submitted message neither starts nor ends with whitespace, and it comes from an input that is not all whitespace |
| Flows.PageRequestsAreAnswered | memory-keeper/app/story-teller/page.tsx:56-75 | the page never posts an empty transcript, so the chat route always replies and the page shows the route's message |
| Flows.AttachedPostReachesContext | memory-keeper/app/generate/page.tsx:48-50 | once a non-empty post is attached to the latest story, the chat context serializes that story by its post |

## Left out

- The Groq SDK calls, with their model name, temperature, token limits and system prompts, are an abstract `complete` function that succeeds with a text or fails.
- The system prompt that wraps the story context is not modelled as text; the request records the context and the transcript it carries.
- HTTP, `fetch`, `response.ok`, `response.text()` and `JSON.parse` are abstract outcomes: a reply or a failure.
- `localStorage` with `JSON.stringify` and `JSON.parse` is a `seq<Story>` field, not a text format. A missing entry is the empty list.
- `console.error` logging in the catch blocks and the speech-recognition error handler is not modelled, because it writes to the console only.
- Speech recognition on the interview page is event-driven plumbing around a browser API.
- The download buttons on the stories and generate pages build browser Blobs.
- All rendering is left out, including the markdown rendering and the disabled states of buttons. The one exception: the Next button's guard is the precondition of `HandleNext`.
- `toLocaleDateString`, `Date.now()` and `toISOString()` are parameters, because their values depend on the clock and the locale.
- `Math.random` in the shuffle is a parameter: any permutation of the pool.
- The 140 pool questions are a parameter, not transcribed text.
- Stories that a concurrent tab writes to `localStorage` between a read and a write are not modelled.
- React's asynchronous state updates and stale closures are not modelled. Each handler reads the state it was called with.
- JavaScript coercions of malformed input, such as a non-array `questions`, a missing `messages` field, or a reply without `blogPost`, are not modelled. Bodies are either well-formed or fail to parse.
- Text.ToLower: maps ASCII letters only, not the full Unicode case mapping of `toLowerCase`.
- String lengths are counted in code points, not in UTF-16 units, which matters only for the 50- and 30-character thresholds on non-BMP text.
- GeneratePage.GenerateView.GenerateBlogPost: `isGenerating` is true while the request is pending. The single-method model cannot observe this; its contract states only that the flag is false on every exit.
- GeneratePage.GenerateView.GenerateBlogPost: a failure after `setBlogPost` but before the storage write, such as a full storage quota, is not modelled. Such a failure would show the post and set the error together.
