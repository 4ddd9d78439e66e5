/** What the fallback responder promises: which rule fires, that the
    first match wins, the length thresholds, and that it always says
    something. */
module ResponderLemmas {
  import opened Records
  import opened Text
  import opened Search
  import opened MockResponder
  import opened Joined

  // ----- the long-answer scan -----

  /** No answer is long enough exactly when every answer of every story is
      at most `n` characters. */
  lemma FirstLongAnswerNone(stories: seq<Story>, n: nat)
    ensures FirstLongAnswer(stories, n).None? <==>
      forall i, j :: 0 <= i < |stories| && 0 <= j < |stories[i].answers| ==> |stories[i].answers[j]| <= n
  {
    FirstSomeNone(stories, LongAnswerOf(n));
    forall i | 0 <= i < |stories|
      ensures LongAnswerOf(n)(stories[i]).None? <==>
        forall j :: 0 <= j < |stories[i].answers| ==> |stories[i].answers[j]| <= n
    {
      FirstSomeNone(stories[i].answers, LongAnswer(n));
    }
  }

  /** A found answer sits at a position (story i, answer j) that is longer
      than `n`, and every position before it in scan order is not. */
  lemma FirstLongAnswerFound(stories: seq<Story>, n: nat) returns (i: nat, j: nat)
    requires FirstLongAnswer(stories, n).Some?
    ensures i < |stories| && j < |stories[i].answers|
    ensures |stories[i].answers[j]| > n && FirstLongAnswer(stories, n) == Some(stories[i].answers[j])
    ensures forall i', j' :: 0 <= i' < i && 0 <= j' < |stories[i'].answers| ==> |stories[i'].answers[j']| <= n
    ensures forall j' :: 0 <= j' < j ==> |stories[i].answers[j']| <= n
  {
    i := FirstSomeWitness(stories, LongAnswerOf(n));
    j := FirstSomeWitness(stories[i].answers, LongAnswer(n));
    forall i' | 0 <= i' < i
      ensures forall j' :: 0 <= j' < |stories[i'].answers| ==> |stories[i'].answers[j']| <= n
    {
      FirstSomeNone(stories[i'].answers, LongAnswer(n));
    }
  }

  /** Conversely, the first long position in scan order is what is found. */
  lemma FirstLongAnswerAt(stories: seq<Story>, n: nat, i: int, j: int)
    requires 0 <= i < |stories| && 0 <= j < |stories[i].answers| && |stories[i].answers[j]| > n
    requires forall i', j' :: 0 <= i' < i && 0 <= j' < |stories[i'].answers| ==> |stories[i'].answers[j']| <= n
    requires forall j' :: 0 <= j' < j ==> |stories[i].answers[j']| <= n
    ensures FirstLongAnswer(stories, n) == Some(stories[i].answers[j])
  {
    FirstSomeAt(stories[i].answers, LongAnswer(n), j);
    forall i' | 0 <= i' < i ensures LongAnswerOf(n)(stories[i']).None? {
      FirstSomeNone(stories[i'].answers, LongAnswer(n));
    }
    FirstSomeAt(stories, LongAnswerOf(n), i);
  }

  // ----- the topic scan -----

  /** What a story offers a topic: the non-empty answer aligned with its
      FIRST matching question; a later matching question is never used. */
  lemma TopicAnswerOfIff(s: Story, k1: string, k2: string, a: string)
    ensures TopicAnswerOf(k1, k2)(s) == Some(a) <==>
      exists idx :: 0 <= idx < |s.questions| && Mentions(s.questions[idx], k1, k2)
        && (forall i :: 0 <= i < idx ==> !Mentions(s.questions[i], k1, k2))
        && idx < |s.answers| && s.answers[idx] == a && a != ""
  {
    var idx := FindIndex(s.questions, k1, k2);
    if TopicAnswerOf(k1, k2)(s) == Some(a) {
      assert 0 <= idx < |s.questions|;
    }
  }

  /** First match wins: the first story that offers an answer is the one used. */
  lemma TopicAnswerAt(stories: seq<Story>, k1: string, k2: string, i: int)
    requires 0 <= i < |stories| && TopicAnswerOf(k1, k2)(stories[i]).Some?
    requires forall j :: 0 <= j < i ==> TopicAnswerOf(k1, k2)(stories[j]).None?
    ensures TopicAnswer(stories, k1, k2) == TopicAnswerOf(k1, k2)(stories[i])
  {
    FirstSomeAt(stories, TopicAnswerOf(k1, k2), i);
  }

  /** Stories behind one that already offers an answer are never consulted. */
  lemma TopicAnswerAppend(front: seq<Story>, back: seq<Story>, k1: string, k2: string)
    ensures TopicAnswer(front + back, k1, k2) ==
      if TopicAnswer(front, k1, k2).Some? then TopicAnswer(front, k1, k2) else TopicAnswer(back, k1, k2)
  {
    FirstSomeAppend(front, back, TopicAnswerOf(k1, k2));
  }

  /** A topic finds nothing exactly when no story offers an answer. */
  lemma TopicAnswerNone(stories: seq<Story>, k1: string, k2: string)
    ensures TopicAnswer(stories, k1, k2).None? <==>
      forall i :: 0 <= i < |stories| ==> TopicAnswerOf(k1, k2)(stories[i]).None?
  {
    FirstSomeNone(stories, TopicAnswerOf(k1, k2));
  }

  // ----- the cascade -----

  /** The continuation rule retells the first answer over 50 characters. */
  lemma ContinuationRetells(messages: seq<Message>, stories: seq<Story>, i: int, j: int)
    requires |messages| > 0 && ContinuationFires(messages)
    requires 0 <= i < |stories| && 0 <= j < |stories[i].answers| && |stories[i].answers[j]| > 50
    requires forall i', j' :: 0 <= i' < i && 0 <= j' < |stories[i'].answers| ==> |stories[i'].answers[j']| <= 50
    requires forall j' :: 0 <= j' < j ==> |stories[i].answers[j']| <= 50
    ensures MockResponse(messages, stories) == ContinuationReply(stories[i].answers[j])
  {
    FirstLongAnswerAt(stories, ContinuationMinLength, i, j);
  }

  /** With no answer over 50 characters the continuation rule admits it
      cannot recall, whatever else the message asks. */
  lemma ContinuationWithoutMemory(messages: seq<Message>, stories: seq<Story>)
    requires |messages| > 0 && ContinuationFires(messages)
    requires forall i, j :: 0 <= i < |stories| && 0 <= j < |stories[i].answers| ==> |stories[i].answers[j]| <= 50
    ensures MockResponse(messages, stories) == NoRecallReply
  {
    FirstLongAnswerNone(stories, ContinuationMinLength);
  }

  const ContinuationLead := "Let me tell you more... "

  /** Each topic and recall reply opens with its fixed lead words, and so
      with the first letter of those words. */
  lemma ReplyLeads(a: string)
    ensures "Ah, my childhood... " <= ChildhoodReply(a)
    ensures "When I think about my family... " <= FamilyReply(a)
    ensures "The traditions we hold dear... " <= TraditionReply(a)
    ensures "I remember when " <= RecallReply(a)
    ensures ChildhoodReply(a)[0] == 'A' && FamilyReply(a)[0] == 'W'
    ensures TraditionReply(a)[0] == 'T' && RecallReply(a)[0] == 'I'
  {
    ChildhoodLead(a);
    FamilyLead(a);
    TraditionLead(a);
    RecallLead(a);
  }

  lemma ChildhoodLead(a: string)
    ensures "Ah, my childhood... " <= ChildhoodReply(a)
  {
    var lead := "Ah, my childhood... ";
    var front := lead + a + ". Those were such formative years. ";
    LeadOf(lead, a, ". Those were such formative years. ");
    PrefixExtends(lead, front, HearMoreInvite);
    PrefixExtends(lead, front + HearMoreInvite, " about that time?");
  }

  lemma FamilyLead(a: string)
    ensures "When I think about my family... " <= FamilyReply(a)
  {
    var lead := "When I think about my family... ";
    LeadOf(lead, a, ". They shaped who I am in so many ways. ");
    PrefixExtends(lead, lead + a + ". They shaped who I am in so many ways. ", "What would you like to know more about?");
  }

  lemma TraditionLead(a: string)
    ensures "The traditions we hold dear... " <= TraditionReply(a)
  {
    LeadOf("The traditions we hold dear... ", a, ". These are the things that truly matter.");
  }

  lemma RecallLead(a: string)
    ensures "I remember when " <= RecallReply(a)
  {
    LeadOf("I remember when ", a, ". That's a memory I cherish.");
  }

  lemma DefaultLeads(last: string, hasStories: bool)
    ensures DefaultReply(last, hasStories)[0] != 'L'
  {
    assert ChildhoodDefault[0] == 'W' && FamilyDefault[0] == 'F' && FamilyDefaultWithStories[0] == 'F';
    assert TraditionDefault[0] == 'T';
    assert GenericDefault[0] == 'T';
  }

  /** Every reply but the continuation reply starts with another letter. */
  lemma OtherRepliesDoNotStartWithL(messages: seq<Message>, stories: seq<Story>)
    requires |messages| > 0
    ensures !ContinuationFires(messages) ==> MockResponse(messages, stories)[0] != 'L'
  {
    var last := LastText(messages);
    var has := |stories| > 0;
    var r := MockResponse(messages, stories);
    if !ContinuationFires(messages) {
      if has && AsksChildhood(last) && ChildhoodAnswer(stories).Some? {
        ReplyLeads(ChildhoodAnswer(stories).value);
      } else if has && AsksFamily(last) && FamilyAnswer(stories).Some? {
        ReplyLeads(FamilyAnswer(stories).value);
      } else if has && AsksTradition(last) && TraditionAnswer(stories).Some? {
        ReplyLeads(TraditionAnswer(stories).value);
      } else if has && AsksRecall(last) && FirstLongAnswer(stories, RecallMinLength).Some? {
        ReplyLeads(FirstLongAnswer(stories, RecallMinLength).value);
      } else {
        assert r == DefaultReply(last, has);
        DefaultLeads(last, has);
      }
    }
  }

  /** The continuation reply is given only when the rule's two conditions
      hold: a follow-up cue now and the invitation in the message before. */
  lemma ContinuationOnlyWhenInvited(messages: seq<Message>, stories: seq<Story>)
    requires |messages| > 0
    requires ContinuationLead <= MockResponse(messages, stories)
    ensures IsFollowUp(LastText(messages))
    ensures |messages| > 2 && Contains(ToLower(messages[|messages| - 2].content), HearMorePhrase)
  {
    OtherRepliesDoNotStartWithL(messages, stories);
    assert MockResponse(messages, stories)[0] == ContinuationLead[0];
  }

  /** First match wins across stories: when the first story offers a family
      answer, later stories are never consulted by the family rule. */
  lemma FamilyFirstStoryWins(messages: seq<Message>, stories: seq<Story>)
    requires |messages| > 0 && !ContinuationFires(messages) && |stories| > 0
    requires AsksFamily(LastText(messages))
    requires !(AsksChildhood(LastText(messages)) && ChildhoodAnswer(stories).Some?)
    requires TopicAnswerOf("parent", "family")(stories[0]).Some?
    ensures MockResponse(messages, stories) == FamilyReply(TopicAnswerOf("parent", "family")(stories[0]).value)
  {
    TopicAnswerAt(stories, "parent", "family", 0);
  }

  /** The topic rules are tried childhood first: a message that asks about
      both childhood and family gets the childhood memory when one exists. */
  lemma ChildhoodBeforeFamily(messages: seq<Message>, stories: seq<Story>, i: int)
    requires |messages| > 0 && !ContinuationFires(messages)
    requires AsksChildhood(LastText(messages))
    requires 0 <= i < |stories| && TopicAnswerOf("childhood", "home")(stories[i]).Some?
    requires forall j :: 0 <= j < i ==> TopicAnswerOf("childhood", "home")(stories[j]).None?
    ensures MockResponse(messages, stories) == ChildhoodReply(TopicAnswerOf("childhood", "home")(stories[i]).value)
  {
    TopicAnswerAt(stories, "childhood", "home", i);
  }

  /** The generic recall retells the first answer over 30 characters when
      no earlier rule applies. */
  lemma RecallRetells(messages: seq<Message>, stories: seq<Story>, i: int, j: int)
    requires |messages| > 0 && !ContinuationFires(messages)
    requires var last := LastText(messages);
      && !(AsksChildhood(last) && ChildhoodAnswer(stories).Some?)
      && !(AsksFamily(last) && FamilyAnswer(stories).Some?)
      && !(AsksTradition(last) && TraditionAnswer(stories).Some?)
      && AsksRecall(last)
    requires 0 <= i < |stories| && 0 <= j < |stories[i].answers| && |stories[i].answers[j]| > 30
    requires forall i', j' :: 0 <= i' < i && 0 <= j' < |stories[i'].answers| ==> |stories[i'].answers[j']| <= 30
    requires forall j' :: 0 <= j' < j ==> |stories[i].answers[j']| <= 30
    ensures MockResponse(messages, stories) == RecallReply(stories[i].answers[j])
  {
    FirstLongAnswerAt(stories, RecallMinLength, i, j);
  }

  /** With no stories every reply is static text chosen by keyword. */
  lemma NoStoriesGivesStaticText(messages: seq<Message>)
    requires |messages| > 0
    ensures MockResponse(messages, []) ==
      if ContinuationFires(messages) then NoRecallReply else DefaultReply(LastText(messages), false)
  {
  }

  /** Only the family default looks at whether stories exist. */
  lemma DefaultDependsOnStoriesOnlyForFamily(last: string)
    ensures DefaultReply(last, true) != DefaultReply(last, false) <==>
      !(Contains(last, "childhood") || Contains(last, "young"))
      && (Contains(last, "family") || Contains(last, "parent") || Contains(last, "grandparent"))
  {
    assert |FamilyDefaultWithStories| != |FamilyDefault|;
  }

  lemma ContainsMiddle(x: string, y: string, z: string)
    ensures Contains(x + y + z, y)
  {
    assert (x + y + z)[|x|..|x| + |y|] == y;
    assert OccursAt(x + y + z, y, |x|);
    ContainsIff(x + y + z, y);
  }

  /** The childhood reply ends by inviting the user to hear more, so a
      "yes" right after it triggers the continuation rule. */
  lemma ChildhoodReplyInvitesContinuation(messages: seq<Message>, a: string)
    requires |messages| > 2
    requires messages[|messages| - 2].content == ChildhoodReply(a)
    requires Contains(LastText(messages), "yes")
    ensures ContinuationFires(messages)
  {
    var front := "Ah, my childhood... " + a + ". Those were such formative years. ";
    var back := " about that time?";
    assert ChildhoodReply(a) == front + HearMoreInvite + back;
    ToLowerAppend(front + HearMoreInvite, back);
    ToLowerAppend(front, HearMoreInvite);
    assert ToLower(HearMoreInvite) == HearMorePhrase;
    ContainsMiddle(ToLower(front), HearMorePhrase, ToLower(back));
    assert PreviousText(messages) == ToLower(front) + HearMorePhrase + ToLower(back);
  }
}
