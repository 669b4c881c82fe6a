/**
 * The drag-end reorder of src/components/ImageUploadList.tsx (lines 41-54):
 * the list is copied, the dragged image is spliced out at its old index and
 * spliced back in at the index the image it was dropped on had.
 */
module ImageUploadList {
  import opened JsCore

  /** `images.indexOf(x)`: the first position holding `x`, or -1. */
  function IndexOfItem(s: seq<string>, x: string): (i: int)
    ensures -1 <= i < |s|
    ensures i >= 0 ==> s[i] == x && forall j :: 0 <= j < i ==> s[j] != x
    ensures i == -1 <==> x !in s
    decreases |s|
  {
    if s == [] then -1
    else if s[0] == x then 0
    else
      var j := IndexOfItem(s[1..], x);
      if j == -1 then -1 else j + 1
  }

  /** The position `splice(start, …)` acts at: a negative start counts from the end, and both are clamped to the list. */
  function SpliceStart(start: int, len: nat): (k: nat)
    ensures k <= len
    ensures 0 <= start <= len ==> k == start
  {
    if start < 0 then (if len + start < 0 then 0 else len + start)
    else if start > len then len
    else start
  }

  /** The list without the element at `k`. */
  function Without<T>(s: seq<T>, k: nat): seq<T>
    requires k < |s|
  {
    s[..k] + s[k + 1..]
  }

  /** `s.splice(start, 1)`: the element at the normalised start is removed, if there is one. */
  function SpliceRemove(s: seq<string>, start: int): (r: seq<string>) {
    var k := SpliceStart(start, |s|);
    if k < |s| then Without(s, k) else s
  }

  /** `s.splice(start, 0, x)`: `x` is inserted before the normalised start. */
  function SpliceInsert(s: seq<string>, start: int, x: string): (r: seq<string>) {
    var k := SpliceStart(start, |s|);
    s[..k] + [x] + s[k..]
  }

  /**
   * What `onReorder` receives, or `None` when it is not called: when nothing
   * was dropped on, or the image was dropped on itself.
   */
  function DragEnd(images: seq<string>, activeId: string, overId: Option<string>): Option<seq<string>> {
    if overId.None? || activeId == overId.value then None
    else
      var oldIndex := IndexOfItem(images, activeId);
      var newIndex := IndexOfItem(images, overId.value);
      Some(SpliceInsert(SpliceRemove(images, oldIndex), newIndex, activeId))
  }

  /** Shifts `a[start + 1 .. len]` one place left, removing `a[start]` (`splice(start, 1)` on an array of length `len`). */
  method RemoveAt(a: array<string>, len: nat, start: nat)
    requires start < len <= a.Length
    modifies a
    ensures a[..len - 1] == Without(old(a[..len]), start)
  {
    var i := start;
    while i < len - 1
      invariant start <= i <= len - 1
      invariant a[..start] == old(a[..start])
      invariant forall j :: start <= j < i ==> a[j] == old(a[j + 1])
      invariant forall j :: i <= j < a.Length ==> a[j] == old(a[j])
    {
      a[i] := a[i + 1];
      i := i + 1;
    }
    assert a[..len - 1] == old(a[..len])[..start] + old(a[..len])[start + 1..];
  }

  /** Shifts `a[start .. len]` one place right and writes `x` at `start` (`splice(start, 0, x)`). */
  method InsertAt(a: array<string>, len: nat, start: nat, x: string)
    requires start <= len < a.Length
    modifies a
    ensures a[..len + 1] == old(a[..len])[..start] + [x] + old(a[..len])[start..]
  {
    ghost var s := a[..len];
    var i := len;
    while i > start
      invariant start <= i <= len
      invariant forall j :: 0 <= j < i ==> a[j] == s[j]
      invariant forall j :: i < j <= len ==> a[j] == s[j - 1]
    {
      a[i] := a[i - 1];
      i := i - 1;
    }
    a[start] := x;
    ghost var r := s[..start] + [x] + s[start..];
    assert |r| == len + 1;
    assert forall j :: 0 <= j <= len ==> a[j] == r[j];
    assert a[..len + 1] == r;
  }

  /**
   * `handleDragEnd`.  The copy `[...images]` lives in an array with room for
   * the one element the second splice may add; the caller's list is a value
   * and is never touched.
   */
  method HandleDragEnd(images: seq<string>, activeId: string, overId: Option<string>) returns (reordered: Option<seq<string>>)
    ensures reordered == DragEnd(images, activeId, overId)
  {
    if overId.None? || activeId == overId.value {
      return None;
    }
    var oldIndex := IndexOfItem(images, activeId);
    var newIndex := IndexOfItem(images, overId.value);
    var newImages := new string[|images| + 1](j requires 0 <= j <= |images| => if j < |images| then images[j] else "");
    assert newImages[..|images|] == images;
    var len := |images|;
    var k := SpliceStart(oldIndex, len);
    if k < len {
      RemoveAt(newImages, len, k);
      len := len - 1;
    }
    ghost var removed := SpliceRemove(images, oldIndex);
    assert newImages[..len] == removed;
    InsertAt(newImages, len, SpliceStart(newIndex, len), activeId);
    return Some(newImages[..len + 1]);
  }

  // ---------------------------------------------------------------------------
  // Properties of the reorder, for an image dropped on a different one, both in the list
  // ---------------------------------------------------------------------------

  /** Nothing is reordered, and `onReorder` is not called, without a drop target or for a drop on itself. */
  lemma NoReorderWithoutMove(images: seq<string>, activeId: string, overId: Option<string>)
    ensures DragEnd(images, activeId, overId).None? <==> overId.None? || overId.value == activeId
  {
  }

  lemma MultisetWithout(s: seq<string>, k: nat)
    requires k < |s|
    ensures multiset(Without(s, k)) == multiset(s) - multiset{s[k]}
  {
    assert s == s[..k] + [s[k]] + s[k + 1..];
  }

  /** The result is a rearrangement of the input: the same images, each as often as before. */
  lemma DragEndIsPermutation(images: seq<string>, activeId: string, overId: string)
    requires activeId != overId && activeId in images && overId in images
    ensures var r := DragEnd(images, activeId, Some(overId)).value;
            |r| == |images| && multiset(r) == multiset(images)
  {
    var oldIndex := IndexOfItem(images, activeId);
    var removed := Without(images, oldIndex);
    assert SpliceRemove(images, oldIndex) == removed;
    MultisetWithout(images, oldIndex);
    var k := SpliceStart(IndexOfItem(images, overId), |removed|);
    var r := removed[..k] + [activeId] + removed[k..];
    assert DragEnd(images, activeId, Some(overId)).value == r;
    assert removed == removed[..k] + removed[k..];
    assert multiset(r) == multiset(removed) + multiset{activeId};
    assert images[oldIndex] == activeId;
  }

  /**
   * The dragged image lands at the index the drop target had, and taking it
   * out again gives the input without it: every other image keeps its
   * relative order.
   */
  lemma DragEndPosition(images: seq<string>, activeId: string, overId: string)
    requires activeId != overId && activeId in images && overId in images
    ensures var r := DragEnd(images, activeId, Some(overId)).value;
            var oldIndex := IndexOfItem(images, activeId);
            var newIndex := IndexOfItem(images, overId);
            0 <= newIndex < |r| && r[newIndex] == activeId
            && Without(r, newIndex) == Without(images, oldIndex)
  {
    var oldIndex := IndexOfItem(images, activeId);
    var newIndex := IndexOfItem(images, overId);
    var removed := Without(images, oldIndex);
    assert SpliceRemove(images, oldIndex) == removed;
    assert SpliceStart(newIndex, |removed|) == newIndex;
    WithoutInserted(removed[..newIndex], activeId, removed[newIndex..]);
    assert removed[..newIndex] + removed[newIndex..] == removed;
  }

  lemma WithoutInserted(a: seq<string>, x: string, b: seq<string>)
    ensures (a + [x] + b)[|a|] == x && Without(a + [x] + b, |a|) == a + b
  {
    assert (a + [x] + b)[..|a|] == a;
    assert (a + [x] + b)[|a| + 1..] == b;
  }

  /** Moving `a` onto `c` in [a, b, c] gives [b, c, a]; moving `c` onto `a` gives [c, a, b]. */
  lemma DragEndExamples()
    ensures DragEnd(["a", "b", "c"], "a", Some("c")) == Some(["b", "c", "a"])
    ensures DragEnd(["a", "b", "c"], "c", Some("a")) == Some(["c", "a", "b"])
  {
    var s: seq<string> := ["a", "b", "c"];
    assert "a" != "c" && "b" != "c" && "a" != "b" by { assert "a"[0] != "c"[0] && "b"[0] != "c"[0] && "a"[0] != "b"[0]; }
    assert s[1..] == ["b", "c"] && s[1..][1..] == ["c"];
    assert IndexOfItem(s, "c") == 2;
    assert IndexOfItem(s, "a") == 0;
    assert SpliceRemove(s, 0) == ["b", "c"];
    assert SpliceInsert(["b", "c"], 2, "a") == ["b", "c", "a"];
    assert SpliceRemove(s, 2) == ["a", "b"];
    assert SpliceInsert(["a", "b"], 0, "c") == ["c", "a", "b"];
  }
}
