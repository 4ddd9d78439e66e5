/** The stories page: the stored stories shown newest first, a selected
    story, and deletion by id after a confirmation. */
module StoriesPage {
  import opened Records
  import opened Storage

  /** The list in the opposite order. */
  function Reverse<T>(s: seq<T>): (r: seq<T>)
    ensures |r| == |s|
    ensures forall i :: 0 <= i < |s| ==> r[i] == s[|s| - 1 - i]
  {
    if |s| == 0 then [] else [s[|s| - 1]] + Reverse(s[..|s| - 1])
  }

  /** `array.reverse()`, in place. */
  method ReverseInPlace<T>(a: array<T>)
    modifies a
    ensures a[..] == Reverse(old(a[..]))
  {
    var i := 0;
    var j := a.Length - 1;
    while i < j
      invariant 0 <= i <= a.Length && j == a.Length - 1 - i
      invariant i <= j + 1
      invariant forall k :: 0 <= k < i ==> a[k] == old(a[a.Length - 1 - k])
      invariant forall k :: j < k < a.Length ==> a[k] == old(a[a.Length - 1 - k])
      invariant forall k :: i <= k <= j ==> a[k] == old(a[k])
    {
      a[i], a[j] := a[j], a[i];
      i := i + 1;
      j := j - 1;
    }
  }

  /** `filter(s => s.id !== id)`. */
  function WithoutId(stories: seq<Story>, id: int): (r: seq<Story>)
    ensures |r| <= |stories|
    ensures forall s :: s in r <==> s in stories && s.id != id
  {
    if |stories| == 0 then []
    else
      var rest := WithoutId(stories[1..], id);
      assert forall s :: s in stories <==> s == stories[0] || s in stories[1..];
      if stories[0].id != id then [stories[0]] + rest else rest
  }

  /** A copy of the list reversed through an array, as the page does it. */
  method Reversed(s: seq<Story>) returns (r: seq<Story>)
    ensures r == Reverse(s)
  {
    var a := new Story[|s|](i requires 0 <= i < |s| => s[i]);
    assert a[..] == s;
    ReverseInPlace(a);
    r := a[..];
  }

  class StoriesView {
    const store: StoryStore
    /** The list shown, newest first. */
    var stories: seq<Story>
    var selectedStory: Option<Story>

    constructor(store: StoryStore)
      ensures this.store == store && stories == [] && selectedStory == None
    {
      this.store := store;
      stories := [];
      selectedStory := None;
    }

    /** On mount: the stored list, reversed. */
    method Load()
      modifies this
      ensures stories == Reverse(store.stories) && selectedStory == old(selectedStory)
    {
      stories := Reversed(store.stories);
    }

    /** Clicking a story card. */
    method Select(story: Story)
      modifies this
      ensures selectedStory == Some(story) && stories == old(stories)
    {
      selectedStory := Some(story);
    }

    /** `deleteStory`: when the user confirms, drops every stored story with
        this id, shows the rest newest first, and clears the selection when
        it was the deleted story. */
    method DeleteStory(id: int, confirmed: bool)
      modifies this, store
      ensures !confirmed ==> stories == old(stories) && selectedStory == old(selectedStory) && store.stories == old(store.stories)
      ensures confirmed ==> store.stories == WithoutId(old(store.stories), id)
      ensures confirmed ==> stories == Reverse(store.stories)
      ensures confirmed ==>
        selectedStory == (if old(selectedStory).Some? && old(selectedStory).value.id == id then None else old(selectedStory))
    {
      if confirmed {
        var filtered := WithoutId(store.stories, id);
        store.stories := filtered;
        stories := Reversed(filtered);
        if selectedStory.Some? && selectedStory.value.id == id {
          selectedStory := None;
        }
      }
    }
  }

  // ----- properties -----

  /** Reversing twice gives the list back. */
  lemma ReverseReverse(s: seq<Story>)
    ensures Reverse(Reverse(s)) == s
  {
    var r := Reverse(Reverse(s));
    assert forall i :: 0 <= i < |s| ==> r[i] == s[i];
  }

  /** Reversal maps a concatenation to the reversed parts in the other order. */
  lemma ReverseAppend(a: seq<Story>, b: seq<Story>)
    ensures Reverse(a + b) == Reverse(b) + Reverse(a)
  {
    var l := Reverse(a + b);
    var r := Reverse(b) + Reverse(a);
    forall i | 0 <= i < |a| + |b|
      ensures l[i] == r[i]
    {
      if i < |b| {
        assert (a + b)[|a| + |b| - 1 - i] == b[|b| - 1 - i];
      } else {
        assert (a + b)[|a| + |b| - 1 - i] == a[|a| - 1 - (i - |b|)];
      }
    }
  }

  /** The filter distributes over a concatenation, which is what keeps the
      surviving stories in their stored order. */
  lemma {:induction false} WithoutIdAppend(a: seq<Story>, b: seq<Story>, id: int)
    ensures WithoutId(a + b, id) == WithoutId(a, id) + WithoutId(b, id)
    decreases |a|
  {
    if |a| == 0 {
      assert a + b == b;
    } else {
      assert (a + b)[0] == a[0];
      assert (a + b)[1..] == a[1..] + b;
      WithoutIdAppend(a[1..], b, id);
    }
  }

  /** Deleting an id that no story has changes nothing. */
  lemma {:induction false} WithoutIdAbsent(stories: seq<Story>, id: int)
    requires forall i :: 0 <= i < |stories| ==> stories[i].id != id
    ensures WithoutId(stories, id) == stories
    decreases |stories|
  {
    if |stories| > 0 {
      WithoutIdAbsent(stories[1..], id);
    }
  }

  /** Deleting the same id twice is the same as deleting it once. */
  lemma WithoutIdIdempotent(stories: seq<Story>, id: int)
    ensures WithoutId(WithoutId(stories, id), id) == WithoutId(stories, id)
  {
    var r := WithoutId(stories, id);
    forall i | 0 <= i < |r|
      ensures r[i].id != id
    {
      assert r[i] in r;
    }
    WithoutIdAbsent(r, id);
  }

  /** Filtering the newest-first list gives the newest-first list of the
      filtered store: the list shown after a delete is the list shown before
      it without the deleted stories. */
  lemma {:induction false} WithoutIdReverse(stories: seq<Story>, id: int)
    ensures WithoutId(Reverse(stories), id) == Reverse(WithoutId(stories, id))
    decreases |stories|
  {
    if |stories| > 0 {
      var init := stories[..|stories| - 1];
      var last := stories[|stories| - 1];
      assert stories == init + [last];
      ReverseAppend(init, [last]);
      assert Reverse([last]) == [last];
      WithoutIdAppend([last], Reverse(init), id);
      WithoutIdAppend(init, [last], id);
      WithoutIdReverse(init, id);
      ReverseAppend(WithoutId(init, id), WithoutId([last], id));
      assert WithoutId([last], id) == (if last.id != id then [last] else []);
      assert Reverse(WithoutId([last], id)) == WithoutId([last], id);
    }
  }
}
