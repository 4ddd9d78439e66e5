/** First-match search: the responder's loops all scan a sequence in order
    and return the first hit. */
module Search {
  import opened Records

  /** The first present `f(x)`, scanning `xs` from the front. */
  function FirstSome<T, U>(xs: seq<T>, f: T -> Option<U>): Option<U>
    decreases |xs|
  {
    if |xs| == 0 then None
    else if f(xs[0]).Some? then f(xs[0])
    else FirstSome(xs[1..], f)
  }

  /** The scan finds nothing exactly when every element misses. */
  lemma {:induction false} FirstSomeNone<T, U>(xs: seq<T>, f: T -> Option<U>)
    ensures FirstSome(xs, f).None? <==> forall i :: 0 <= i < |xs| ==> f(xs[i]).None?
    decreases |xs|
  {
    if |xs| > 0 {
      FirstSomeNone(xs[1..], f);
      assert forall i :: 1 <= i < |xs| ==> xs[i] == xs[1..][i - 1];
    }
  }

  /** A hit preceded only by misses is what the scan returns. */
  lemma {:induction false} FirstSomeAt<T, U>(xs: seq<T>, f: T -> Option<U>, i: int)
    requires 0 <= i < |xs| && f(xs[i]).Some?
    requires forall j :: 0 <= j < i ==> f(xs[j]).None?
    ensures FirstSome(xs, f) == f(xs[i])
    decreases i
  {
    if i > 0 {
      assert forall j :: 0 <= j < i - 1 ==> xs[1..][j] == xs[j + 1];
      FirstSomeAt(xs[1..], f, i - 1);
    }
  }

  /** What the scan returns comes from the first element that hits. */
  lemma {:induction false} FirstSomeWitness<T, U>(xs: seq<T>, f: T -> Option<U>) returns (i: nat)
    requires FirstSome(xs, f).Some?
    ensures i < |xs| && f(xs[i]) == FirstSome(xs, f)
    ensures forall j :: 0 <= j < i ==> f(xs[j]).None?
    decreases |xs|
  {
    if f(xs[0]).Some? {
      i := 0;
    } else {
      var k := FirstSomeWitness(xs[1..], f);
      i := k + 1;
      assert forall j :: 1 <= j < i ==> xs[j] == xs[1..][j - 1];
    }
  }

  /** First match wins: a hit in the front part hides everything behind it. */
  lemma {:induction false} FirstSomeAppend<T, U>(a: seq<T>, b: seq<T>, f: T -> Option<U>)
    ensures FirstSome(a + b, f) == if FirstSome(a, f).Some? then FirstSome(a, f) else FirstSome(b, f)
    decreases |a|
  {
    if |a| == 0 {
      assert a + b == b;
    } else {
      assert (a + b)[0] == a[0];
      assert (a + b)[1..] == a[1..] + b;
      FirstSomeAppend(a[1..], b, f);
    }
  }

  /** One step of a forward scan: a miss at `i` passes the search on to `i + 1`. */
  lemma FirstSomeStep<T, U>(xs: seq<T>, f: T -> Option<U>, i: int)
    requires 0 <= i < |xs|
    ensures FirstSome(xs[i..], f) == if f(xs[i]).Some? then f(xs[i]) else FirstSome(xs[i + 1..], f)
  {
    assert xs[i..][0] == xs[i];
    assert xs[i..][1..] == xs[i + 1..];
  }
}
