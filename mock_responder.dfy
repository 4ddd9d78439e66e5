/** The fallback chat responder: a first-match cascade of keyword rules over
    the transcript and the stored stories, used when no language model
    answers. A continuation rule, three topic rules, a generic recall rule,
    then keyword-selected canned replies. */
module MockResponder {
  import opened Records
  import opened Text
  import opened Search

  /** An answer is retold by the continuation rule only when longer than this. */
  const ContinuationMinLength: nat := 50
  /** An answer is recalled by the generic rule only when longer than this. */
  const RecallMinLength: nat := 30

  const HearMorePhrase := "would you like to hear more"

  // ----- reply texts (long texts are written sentence by sentence) -----

  function ContinuationReply(a: string): string
  {
    "Let me tell you more... " + a + ". Those memories really stayed with me. "
    + "Is there a particular aspect you'd like to explore further?"
  }

  const NoRecallReply := "I'd love to share more, but I'm having trouble recalling the details right now. "
    + "What specific aspect would you like me to tell you about?"

  /** The invitation that ends the childhood reply; lowercased, it is the
      phrase the continuation rule looks for. */
  const HearMoreInvite := "Would you like to hear more"

  function ChildhoodReply(a: string): string
  {
    "Ah, my childhood... " + a + ". Those were such formative years. " + HearMoreInvite + " about that time?"
  }

  function FamilyReply(a: string): string
  {
    "When I think about my family... " + a + ". They shaped who I am in so many ways. "
    + "What would you like to know more about?"
  }

  function TraditionReply(a: string): string
  {
    "The traditions we hold dear... " + a + ". These are the things that truly matter."
  }

  function RecallReply(a: string): string
  {
    "I remember when " + a + ". That's a memory I cherish."
  }

  const ChildhoodDefault := "What a wonderful question! " + "Childhood moments are so precious. "
    + "Can you tell me more about the people who were part of that time? "
    + "What do you remember most vividly about them?"
  const FamilyDefaultWithStories := "Family connections are truly special. "
    + "I can see you've already shared some beautiful memories. " + "I'd love to hear more about that. "
    + "What traditions or values did they pass down to you that you still carry with you today?"
  const FamilyDefault := "Family connections are truly special. " + "I'd love to hear more about that. "
    + "What traditions or values did they pass down to you that you still carry with you today?"
  const TraditionDefault := "Traditions have such a beautiful way " + "of connecting generations. "
    + "How did this tradition make you feel? "
    + "Are there specific moments from these celebrations that stand out in your memory?"
  const GenericDefault := "Thank you for sharing that with me. " + "These stories are so important to preserve. "
    + "What aspect of your life would you like to explore together?"

  // ----- keyword tests on the lowercased latest message -----

  predicate IsFollowUp(last: string)
  {
    Contains(last, "yes") || Contains(last, "tell me more") || Contains(last, "continue") || Contains(last, "more about")
  }

  predicate AsksChildhood(last: string)
  {
    Contains(last, "childhood") || Contains(last, "young") || Contains(last, "how was")
  }

  predicate AsksFamily(last: string)
  {
    Contains(last, "family") || Contains(last, "parent") || Contains(last, "mother") || Contains(last, "father")
  }

  predicate AsksTradition(last: string)
  {
    Contains(last, "tradition") || Contains(last, "value")
  }

  predicate AsksRecall(last: string)
  {
    Contains(last, "tell me") || Contains(last, "story") || Contains(last, "remember")
  }

  // ----- the searches -----

  /** An answer counts as a memory worth retelling when longer than `n`. */
  function LongAnswer(n: nat): string -> Option<string>
  {
    (a: string) => if |a| > n then Some(a) else None
  }

  function LongAnswerOf(n: nat): Story -> Option<string>
  {
    (s: Story) => FirstSome(s.answers, LongAnswer(n))
  }

  /** The first answer longer than `n`: stories in order, and within a
      story its answers in order. */
  function FirstLongAnswer(stories: seq<Story>, n: nat): Option<string>
  {
    FirstSome(stories, LongAnswerOf(n))
  }

  /** The lowercased question mentions one of the two keywords. */
  predicate Mentions(q: string, k1: string, k2: string)
  {
    Contains(ToLower(q), k1) || Contains(ToLower(q), k2)
  }

  /** `questions.findIndex(q => ...)`: the first matching index, or -1. */
  function FindIndex(qs: seq<string>, k1: string, k2: string): (r: int)
    ensures -1 <= r < |qs|
    ensures r == -1 <==> forall i :: 0 <= i < |qs| ==> !Mentions(qs[i], k1, k2)
    ensures r >= 0 ==> Mentions(qs[r], k1, k2) && forall i :: 0 <= i < r ==> !Mentions(qs[i], k1, k2)
    decreases |qs|
  {
    if |qs| == 0 then -1
    else if Mentions(qs[0], k1, k2) then 0
    else
      var r := FindIndex(qs[1..], k1, k2);
      assert forall i :: 1 <= i < |qs| ==> qs[i] == qs[1..][i - 1];
      if r == -1 then -1 else r + 1
  }

  /** What one story offers a topic rule: the answer aligned with its first
      matching question, when that answer exists and is non-empty. */
  function TopicAnswerOf(k1: string, k2: string): Story -> Option<string>
  {
    (s: Story) =>
      var idx := FindIndex(s.questions, k1, k2);
      if idx >= 0 && Truthy(AnswerAt(s.answers, idx)) then Some(s.answers[idx]) else None
  }

  /** The first story that offers an answer to the topic. */
  function TopicAnswer(stories: seq<Story>, k1: string, k2: string): Option<string>
  {
    FirstSome(stories, TopicAnswerOf(k1, k2))
  }

  function ChildhoodAnswer(stories: seq<Story>): Option<string> { TopicAnswer(stories, "childhood", "home") }
  function FamilyAnswer(stories: seq<Story>): Option<string> { TopicAnswer(stories, "parent", "family") }
  function TraditionAnswer(stories: seq<Story>): Option<string> { TopicAnswer(stories, "tradition", "value") }

  // ----- the cascade -----

  function LastText(messages: seq<Message>): string
    requires |messages| > 0
  {
    ToLower(messages[|messages| - 1].content)
  }

  /** The message before the latest one; taken as empty unless the
      transcript has more than two messages. */
  function PreviousText(messages: seq<Message>): string
    requires |messages| > 0
  {
    if |messages| > 2 then ToLower(messages[|messages| - 2].content) else ""
  }

  predicate ContinuationFires(messages: seq<Message>)
    requires |messages| > 0
  {
    IsFollowUp(LastText(messages)) && Contains(PreviousText(messages), HearMorePhrase)
  }

  /** The canned replies, chosen by keyword alone; only the family reply
      depends on whether stories exist. */
  function DefaultReply(last: string, hasStories: bool): (r: string)
    ensures |r| > 0
  {
    if Contains(last, "childhood") || Contains(last, "young") then ChildhoodDefault
    else if Contains(last, "family") || Contains(last, "parent") || Contains(last, "grandparent") then
      (if hasStories then FamilyDefaultWithStories else FamilyDefault)
    else if Contains(last, "tradition") || Contains(last, "holiday") then TraditionDefault
    else GenericDefault
  }

  /** The continuation rule's reply: the first long answer retold, or an
      apology for remembering nothing. */
  function ContinuationAnswer(stories: seq<Story>): (r: string)
    ensures |r| > 0
  {
    if |stories| > 0 && FirstLongAnswer(stories, ContinuationMinLength).Some? then
      ContinuationReply(FirstLongAnswer(stories, ContinuationMinLength).value)
    else NoRecallReply
  }

  /** The rules after the continuation rule: the topic rules, the recall
      rule, then the canned replies. */
  function KeywordReply(last: string, stories: seq<Story>): (r: string)
    ensures |r| > 0
  {
    var hasStories := |stories| > 0;
    if hasStories && AsksChildhood(last) && ChildhoodAnswer(stories).Some? then
      ChildhoodReply(ChildhoodAnswer(stories).value)
    else if hasStories && AsksFamily(last) && FamilyAnswer(stories).Some? then
      FamilyReply(FamilyAnswer(stories).value)
    else if hasStories && AsksTradition(last) && TraditionAnswer(stories).Some? then
      TraditionReply(TraditionAnswer(stories).value)
    else if hasStories && AsksRecall(last) && FirstLongAnswer(stories, RecallMinLength).Some? then
      RecallReply(FirstLongAnswer(stories, RecallMinLength).value)
    else DefaultReply(last, hasStories)
  }

  /** `generateMockResponse`: the reply to the latest message. */
  function MockResponse(messages: seq<Message>, stories: seq<Story>): (r: string)
    requires |messages| > 0
    ensures |r| > 0
  {
    if ContinuationFires(messages) then ContinuationAnswer(stories)
    else KeywordReply(LastText(messages), stories)
  }

  // ----- the source's loops -----

  /** The nested `for` loops of the continuation and recall rules: stories
      in order, answers in order, return on the first long one. */
  method ScanLongAnswer(stories: seq<Story>, n: nat) returns (r: Option<string>)
    ensures r == FirstLongAnswer(stories, n)
  {
    var i := 0;
    while i < |stories|
      invariant 0 <= i <= |stories|
      invariant FirstLongAnswer(stories, n) == FirstSome(stories[i..], LongAnswerOf(n))
    {
      var answers := stories[i].answers;
      FirstSomeStep(stories, LongAnswerOf(n), i);
      var j := 0;
      while j < |answers|
        invariant 0 <= j <= |answers|
        invariant FirstSome(answers, LongAnswer(n)) == FirstSome(answers[j..], LongAnswer(n))
      {
        FirstSomeStep(answers, LongAnswer(n), j);
        if |answers[j]| > n {
          return Some(answers[j]);
        }
        j := j + 1;
      }
      i := i + 1;
    }
    r := None;
  }

  /** The loop of a topic rule: the first story whose first matching
      question has a non-empty aligned answer. */
  method ScanTopic(stories: seq<Story>, k1: string, k2: string) returns (r: Option<string>)
    ensures r == TopicAnswer(stories, k1, k2)
  {
    var i := 0;
    while i < |stories|
      invariant 0 <= i <= |stories|
      invariant TopicAnswer(stories, k1, k2) == FirstSome(stories[i..], TopicAnswerOf(k1, k2))
    {
      var story := stories[i];
      FirstSomeStep(stories, TopicAnswerOf(k1, k2), i);
      var idx := FindIndex(story.questions, k1, k2);
      if idx >= 0 && idx < |story.answers| && story.answers[idx] != "" {
        return Some(story.answers[idx]);
      }
      i := i + 1;
    }
    r := None;
  }

  /** `generateMockResponse` as the source runs it. */
  method GenerateMockResponse(messages: seq<Message>, stories: seq<Story>) returns (r: string)
    requires |messages| > 0
    ensures r == MockResponse(messages, stories)
  {
    var last := ToLower(messages[|messages| - 1].content);
    var hasStories := |stories| > 0;
    var previous := if |messages| > 2 then ToLower(messages[|messages| - 2].content) else "";
    var isFollowUp := Contains(last, "yes") || Contains(last, "tell me more")
                      || Contains(last, "continue") || Contains(last, "more about");
    assert last == LastText(messages) && previous == PreviousText(messages);
    if isFollowUp && Contains(previous, HearMorePhrase) {
      assert ContinuationFires(messages);
      if hasStories {
        var found := ScanLongAnswer(stories, ContinuationMinLength);
        if found.Some? {
          return ContinuationReply(found.value);
        }
      }
      return NoRecallReply;
    }
    assert !ContinuationFires(messages);
    r := RespondToKeywords(last, stories);
  }

  /** The part of `generateMockResponse` after the continuation rule. */
  method RespondToKeywords(last: string, stories: seq<Story>) returns (r: string)
    ensures r == KeywordReply(last, stories)
  {
    var hasStories := |stories| > 0;
    if hasStories && AsksChildhood(last) {
      var found := ScanTopic(stories, "childhood", "home");
      if found.Some? {
        return ChildhoodReply(found.value);
      }
    }
    if hasStories && AsksFamily(last) {
      var found := ScanTopic(stories, "parent", "family");
      if found.Some? {
        return FamilyReply(found.value);
      }
    }
    if hasStories && AsksTradition(last) {
      var found := ScanTopic(stories, "tradition", "value");
      if found.Some? {
        return TraditionReply(found.value);
      }
    }
    if hasStories && AsksRecall(last) {
      var found := ScanLongAnswer(stories, RecallMinLength);
      if found.Some? {
        return RecallReply(found.value);
      }
    }
    r := DefaultReply(last, hasStories);
  }
}
