/** Text built by appending one piece per element, in order: the shape of
    every loop in the app that grows a string with `+=`. */
module Joined {

  /** The pieces of the first `i` elements of `xs`, in order; `piece` also
      sees the element's index. */
  function Concat<T>(xs: seq<T>, i: nat, piece: (nat, T) -> string): string
    requires i <= |xs|
  {
    if i == 0 then "" else Concat(xs, i - 1, piece) + piece(i - 1, xs[i - 1])
  }

  /** One more element appends exactly its piece. */
  lemma ConcatStep<T>(xs: seq<T>, i: nat, piece: (nat, T) -> string)
    requires i < |xs|
    ensures Concat(xs, i + 1, piece) == Concat(xs, i, piece) + piece(i, xs[i])
  {
  }

  /** The text only depends on the elements it covers. */
  lemma {:induction false} ConcatOfPrefix<T>(xs: seq<T>, more: seq<T>, i: nat, piece: (nat, T) -> string)
    requires i <= |xs|
    ensures Concat(xs + more, i, piece) == Concat(xs, i, piece)
  {
    if i > 0 {
      ConcatOfPrefix(xs, more, i - 1, piece);
      assert (xs + more)[i - 1] == xs[i - 1];
    }
  }

  /** The text of the first `i` elements is the text of the first `i` elements taken alone. */
  lemma ConcatOfTake<T>(xs: seq<T>, i: nat, piece: (nat, T) -> string)
    requires i <= |xs|
    ensures Concat(xs[..i], i, piece) == Concat(xs, i, piece)
  {
    ConcatOfPrefix(xs[..i], xs[i..], i, piece);
    assert xs[..i] + xs[i..] == xs;
  }

  /** Two piece functions that agree on the covered elements give the same text. */
  lemma {:induction false} ConcatAgree<T>(xs: seq<T>, i: nat, p: (nat, T) -> string, q: (nat, T) -> string)
    requires i <= |xs|
    requires forall j :: 0 <= j < i ==> p(j, xs[j]) == q(j, xs[j])
    ensures Concat(xs, i, p) == Concat(xs, i, q)
  {
    if i > 0 {
      ConcatAgree(xs, i - 1, p, q);
    }
  }

  /** Elements with empty pieces contribute nothing. */
  lemma {:induction false} ConcatOfEmptyPieces<T>(xs: seq<T>, i: nat, piece: (nat, T) -> string)
    requires i <= |xs|
    requires forall j :: 0 <= j < i ==> piece(j, xs[j]) == ""
    ensures Concat(xs, i, piece) == ""
  {
    if i > 0 {
      ConcatOfEmptyPieces(xs, i - 1, piece);
    }
  }

  /** Appending is associative. */
  lemma AppendAssoc(a: string, b: string, c: string)
    ensures a + (b + c) == (a + b) + c
  {
  }

  /** The pieces of a three-part text sit at their offsets. */
  lemma MiddleOf(p: string, x: string, rest: string)
    ensures (p + x + rest)[..|p|] == p
    ensures (p + x + rest)[|p|..|p| + |x|] == x
    ensures (p + x + rest)[|p| + |x|..] == rest
  {
  }

  lemma PrefixOfAppend(a: string, b: string)
    ensures a <= a + b
  {
    assert (a + b)[..|a|] == a;
  }

  lemma PrefixExtends(a: string, b: string, c: string)
    requires a <= b
    ensures a <= b + c
  {
    assert (b + c)[..|a|] == b[..|a|];
  }

  /** A lead stays a prefix when two pieces follow it. */
  lemma LeadOf(lead: string, a: string, b: string)
    ensures lead <= lead + a + b
  {
    PrefixOfAppend(lead, a);
    PrefixExtends(lead, lead + a, b);
  }

  lemma PrefixFront(x: string, a: string, b: string)
    requires a <= b
    ensures x + a <= x + b
  {
    assert (x + b)[..|x + a|] == x + b[..|a|];
  }

  /** A prefix stays a prefix inside a larger text. */
  lemma PrefixInside(pre: string, a: string, b: string, post: string)
    requires a <= b
    ensures pre + a <= pre + (b + post)
  {
    PrefixExtends(a, b, post);
    PrefixFront(pre, a, b + post);
  }

  /** Pieces appear in element order: the text before element `k` followed
      by its piece is a prefix of the text of any later point. */
  lemma {:induction false} ConcatInOrder<T>(xs: seq<T>, k: nat, n: nat, piece: (nat, T) -> string)
    requires k < n <= |xs|
    ensures Concat(xs, k, piece) + piece(k, xs[k]) <= Concat(xs, n, piece)
    decreases n
  {
    var front := Concat(xs, k, piece) + piece(k, xs[k]);
    if n > k + 1 {
      ConcatInOrder(xs, k, n - 1, piece);
      PrefixExtends(front, Concat(xs, n - 1, piece), piece(n - 1, xs[n - 1]));
    } else {
      PrefixOfAppend(front, "");
      assert front + "" == front;
    }
  }

  /** The piece of part `i` in `parts.join(sep)`: every part but the first
      is preceded by the separator. */
  function SeparatedBy(sep: string): (nat, string) -> string
  {
    (i: nat, p: string) => if i == 0 then p else sep + p
  }

  /** `parts.join(sep)`. */
  function Join(parts: seq<string>, sep: string): string
  {
    Concat(parts, |parts|, SeparatedBy(sep))
  }

  /** Joining one part gives that part; appending a part to a non-empty
      list appends the separator and the part. */
  lemma JoinAppend(parts: seq<string>, p: string, sep: string)
    ensures |parts| == 0 ==> Join(parts + [p], sep) == p
    ensures |parts| > 0 ==> Join(parts + [p], sep) == Join(parts, sep) + (sep + p)
  {
    var all := parts + [p];
    ConcatStep(all, |parts|, SeparatedBy(sep));
    ConcatOfPrefix(parts, [p], |parts|, SeparatedBy(sep));
    assert all[|parts|] == p;
  }
}
