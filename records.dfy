/** The records the app passes between its pages and its API routes. */
module Records {

  datatype Option<+T> = None | Some(value: T)

  /** Who wrote a chat message. */
  datatype Role = User | Assistant | System

  /** One chat message: transient, never persisted. */
  datatype Message = Message(role: Role, content: string)

  /** One completed interview. `answers[i]` belongs to `questions[i]`;
      `blogPost` and `generatedAt` are absent until a post is generated. */
  datatype Story = Story(
    id: int,
    date: string,
    questions: seq<string>,
    answers: seq<string>,
    blogPost: Option<string>,
    generatedAt: Option<string>)

  /** JavaScript truthiness of an optional string: present and non-empty. */
  predicate Truthy(s: Option<string>)
  {
    s.Some? && s.value != ""
  }

  /** `answers[i]` read the JavaScript way: `undefined` past the end. */
  function AnswerAt(answers: seq<string>, i: nat): Option<string>
  {
    if i < |answers| then Some(answers[i]) else None
  }

  /** `a || fallback` on an optional string. */
  function Or(a: Option<string>, fallback: string): (r: string)
    ensures Truthy(a) ==> r == a.value
    ensures !Truthy(a) ==> r == fallback
  {
    if Truthy(a) then a.value else fallback
  }

  /** What a call to the hosted language model comes back with: its text,
      or a failure of any kind (network, quota, malformed reply). */
  datatype LlmOutcome = Completed(content: string) | Failed
}
