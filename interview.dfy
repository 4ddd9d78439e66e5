/** The interview page: six questions drawn from a pool, answered one at a
    time with Next and Previous, and saved as one story on completion. */
module Interview {
  import opened Records
  import opened Text
  import opened Storage

  /** The page asks `selectRandomQuestions(6)`. */
  const QuestionsPerInterview: nat := 6

  predicate Distinct(s: seq<string>)
  {
    forall i, j :: 0 <= i < j < |s| ==> s[i] != s[j]
  }

  function Min(a: nat, b: nat): nat
  {
    if a <= b then a else b
  }

  /** `shuffled.slice(0, count)`, where `shuffled` is the pool in the order
      the random sort left it: some permutation of the pool. */
  function SelectQuestions(pool: seq<string>, shuffled: seq<string>, count: nat): (r: seq<string>)
    requires multiset(shuffled) == multiset(pool)
    ensures |r| == Min(count, |pool|)
    ensures forall i :: 0 <= i < |r| ==> r[i] in pool
    ensures Distinct(pool) ==> Distinct(r)
  {
    PermutationMembers(pool, shuffled);
    if Distinct(pool) then
      DistinctOfPermutation(pool, shuffled);
      shuffled[..Min(count, |shuffled|)]
    else shuffled[..Min(count, |shuffled|)]
  }

  lemma PermutationMembers(pool: seq<string>, shuffled: seq<string>)
    requires multiset(shuffled) == multiset(pool)
    ensures |shuffled| == |pool|
    ensures forall i :: 0 <= i < |shuffled| ==> shuffled[i] in pool
  {
    assert |shuffled| == |multiset(shuffled)| == |pool|;
    forall i | 0 <= i < |shuffled|
      ensures shuffled[i] in pool
    {
      assert shuffled[i] in multiset(shuffled);
    }
  }

  lemma {:induction false} DistinctCount(s: seq<string>, x: string)
    requires Distinct(s)
    ensures multiset(s)[x] <= 1
    decreases |s|
  {
    if |s| > 0 {
      var init := s[..|s| - 1];
      assert s == init + [s[|s| - 1]];
      assert Distinct(init);
      DistinctCount(init, x);
      if x == s[|s| - 1] {
        assert x !in init;
        assert multiset(init)[x] == 0;
      }
    }
  }

  lemma RepeatCount(s: seq<string>, i: nat, j: nat)
    requires i < j < |s| && s[i] == s[j]
    ensures multiset(s)[s[i]] >= 2
  {
    var front := s[..j];
    assert s == front + [s[j]] + s[j + 1..];
    assert front[i] == s[i];
    assert s[i] in multiset(front);
  }

  /** A permutation of a list without repeats has no repeats. */
  lemma DistinctOfPermutation(pool: seq<string>, shuffled: seq<string>)
    requires multiset(shuffled) == multiset(pool) && Distinct(pool)
    ensures Distinct(shuffled)
  {
    forall i, j | 0 <= i < j < |shuffled|
      ensures shuffled[i] != shuffled[j]
    {
      DistinctCount(pool, shuffled[i]);
      if shuffled[i] == shuffled[j] {
        RepeatCount(shuffled, i, j);
      }
    }
  }

  /** The n empty answers a session starts with. */
  function EmptyAnswers(n: nat): (r: seq<string>)
    ensures |r| == n && forall i :: 0 <= i < n ==> r[i] == ""
  {
    seq(n, _ => "")
  }

  /** The record the completion step appends. */
  function CompletedStory(id: int, date: string, questions: seq<string>, answers: seq<string>): Story
  {
    Story(id, date, questions, answers, None, None)
  }

  class InterviewSession {
    const questions: seq<string>
    const store: StoryStore
    var currentQuestion: nat
    var answers: seq<string>
    var currentAnswer: string
    var isComplete: bool

    /** One answer slot per question, and the cursor on a question. */
    ghost predicate Valid()
      reads this
    {
      |questions| > 0 && |answers| == |questions| && currentQuestion < |questions|
    }

    /** A fresh session on the selected questions. */
    constructor(questions: seq<string>, store: StoryStore)
      requires |questions| > 0
      ensures Valid()
      ensures this.questions == questions && this.store == store
      ensures currentQuestion == 0 && answers == EmptyAnswers(|questions|)
      ensures currentAnswer == "" && !isComplete
    {
      this.questions := questions;
      this.store := store;
      currentQuestion := 0;
      answers := EmptyAnswers(|questions|);
      currentAnswer := "";
      isComplete := false;
    }

    /** Typing in the answer box (and dictation appending to it). */
    method EditAnswer(text: string)
      modifies this
      ensures currentAnswer == text
      ensures currentQuestion == old(currentQuestion) && answers == old(answers) && isComplete == old(isComplete)
    {
      currentAnswer := text;
    }

    /** `handleNext`: stores the current answer; then moves on, or on the
        last question saves the interview as a new story. The button is
        enabled only when the trimmed answer is non-empty. */
    method HandleNext(now: int, isoNow: string)
      requires Valid() && !isComplete && Trim(currentAnswer) != ""
      modifies this, store
      ensures Valid()
      ensures answers == old(answers)[old(currentQuestion) := old(currentAnswer)]
      ensures old(currentQuestion) < |questions| - 1 ==>
        currentQuestion == old(currentQuestion) + 1 && currentAnswer == old(answers)[currentQuestion]
        && !isComplete && store.stories == old(store.stories)
      ensures old(currentQuestion) == |questions| - 1 ==>
        currentQuestion == old(currentQuestion) && currentAnswer == old(currentAnswer) && isComplete
        && store.stories == old(store.stories) + [CompletedStory(now, isoNow, questions, answers)]
    {
      var previous := answers;
      var newAnswers := answers[currentQuestion := currentAnswer];
      answers := newAnswers;
      if currentQuestion < |questions| - 1 {
        currentQuestion := currentQuestion + 1;
        currentAnswer := previous[currentQuestion];
      } else {
        store.stories := store.stories + [CompletedStory(now, isoNow, questions, newAnswers)];
        isComplete := true;
      }
    }

    /** `handlePrevious`: nothing on the first question; otherwise stores
        the current answer and steps back to the previous one. */
    method HandlePrevious()
      requires Valid()
      modifies this
      ensures Valid() && isComplete == old(isComplete)
      ensures old(currentQuestion) == 0 ==>
        currentQuestion == 0 && answers == old(answers) && currentAnswer == old(currentAnswer)
      ensures old(currentQuestion) > 0 ==>
        answers == old(answers)[old(currentQuestion) := old(currentAnswer)]
        && currentQuestion == old(currentQuestion) - 1 && currentAnswer == old(answers)[currentQuestion]
    {
      if currentQuestion > 0 {
        var previous := answers;
        answers := answers[currentQuestion := currentAnswer];
        currentQuestion := currentQuestion - 1;
        currentAnswer := previous[currentQuestion];
      }
    }
  }

  /** A whole interview answered straight through: opening the page,
      typing each answer and pressing Next saves exactly one story holding
      the questions and the typed answers, after the stories already stored. */
  method AnswerAll(questions: seq<string>, texts: seq<string>, store: StoryStore, now: int, isoNow: string)
    returns (session: InterviewSession)
    requires |questions| > 0 && |texts| == |questions|
    requires forall i :: 0 <= i < |texts| ==> Trim(texts[i]) != ""
    modifies store
    ensures session.isComplete && session.answers == texts
    ensures store.stories == old(store.stories) + [CompletedStory(now, isoNow, questions, texts)]
  {
    session := new InterviewSession(questions, store);
    var k := 0;
    while k < |texts| - 1
      invariant 0 <= k < |texts|
      invariant session.Valid() && session.questions == questions && session.store == store
      invariant session.currentQuestion == k && !session.isComplete
      invariant store.stories == old(store.stories)
      invariant forall i :: 0 <= i < k ==> session.answers[i] == texts[i]
      invariant forall i :: k <= i < |texts| ==> session.answers[i] == ""
      modifies session, store
    {
      session.EditAnswer(texts[k]);
      session.HandleNext(now, isoNow);
      k := k + 1;
    }
    session.EditAnswer(texts[k]);
    session.HandleNext(now, isoNow);
    assert session.answers == texts;
  }
}
