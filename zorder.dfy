/**
 * Stacking-order moves of the canvas object array, as the bring-forward and
 * send-backward handlers perform them with two `splice` calls
 * (src/components/Canvas/controls/CommonControls.tsx:13-41, repeated in
 * src/components/Canvas/ContextMenu.tsx:43-71). The functions follow the code
 * step by step; the lemmas state what those steps amount to.
 */
module ZOrder {
  import opened ArrayOps

  /**
   * The array after bring-forward of `x`: remove `x` at its index, then insert
   * it one slot higher, but only when that slot is inside the array.
   */
  function BringForward<T(==)>(s: seq<T>, x: T): (r: seq<T>)
    ensures |r| == |s|
  {
    var currentIndex := IndexOf(s, x);
    var newIndex := currentIndex + 1;
    if newIndex < |s| then SpliceInsert(SpliceRemove(s, currentIndex), newIndex, x) else s
  }

  /**
   * The array after send-backward of `x`: when `x` sits above the bottom,
   * remove it and insert it one slot lower.
   */
  function SendBackward<T(==)>(s: seq<T>, x: T): (r: seq<T>)
    ensures |r| == |s|
  {
    var currentIndex := IndexOf(s, x);
    var newIndex := if currentIndex - 1 < 0 then 0 else currentIndex - 1;
    if currentIndex > 0 then SpliceInsert(SpliceRemove(s, currentIndex), newIndex, x) else s
  }

  /** Bring-forward of the top object (or on an empty array) changes nothing. */
  lemma BringForwardTopIsNoOp<T>(s: seq<T>, x: T)
    requires IndexOf(s, x) == |s| - 1
    ensures BringForward(s, x) == s
  {
  }

  /** Removing the element at `i` and re-inserting it at `i + 1` swaps it with its upper neighbour. */
  lemma SpliceUpIsSwap<T>(s: seq<T>, i: nat)
    requires i < |s| - 1
    ensures SpliceInsert(SpliceRemove(s, i), i + 1, s[i]) == Swap(s, i)
  {
    var removed := SpliceRemove(s, i);
    assert removed == s[..i] + s[i + 1..];
    var r := SpliceInsert(removed, i + 1, s[i]);
    assert r == removed[..i + 1] + [s[i]] + removed[i + 1..];
    assert removed[..i + 1] == s[..i] + [s[i + 1]];
    assert removed[i + 1..] == s[i + 2..];
    assert r == s[..i] + [s[i + 1], s[i]] + s[i + 2..];
  }

  /** Removing the element at `i` and re-inserting it at `i - 1` swaps it with its lower neighbour. */
  lemma SpliceDownIsSwap<T>(s: seq<T>, i: nat)
    requires 0 < i < |s|
    ensures SpliceInsert(SpliceRemove(s, i), i - 1, s[i]) == Swap(s, i - 1)
  {
    var removed := SpliceRemove(s, i);
    assert removed == s[..i] + s[i + 1..];
    var r := SpliceInsert(removed, i - 1, s[i]);
    assert r == removed[..i - 1] + [s[i]] + removed[i - 1..];
    assert removed[..i - 1] == s[..i - 1];
    assert removed[i - 1..] == [s[i - 1]] + s[i + 1..];
    assert r == s[..i - 1] + [s[i], s[i - 1]] + s[i + 1..];
  }

  /** Bring-forward of a present object below the top swaps it with the one above. */
  lemma BringForwardSwaps<T>(s: seq<T>, x: T)
    requires 0 <= IndexOf(s, x) < |s| - 1
    ensures BringForward(s, x) == Swap(s, IndexOf(s, x))
  {
    SpliceUpIsSwap(s, IndexOf(s, x));
  }

  /**
   * Bring-forward of an object that is not in a non-empty array: `indexOf`
   * gives -1, `splice(-1, 1)` drops the top object and `x` is inserted at
   * the bottom.
   */
  lemma BringForwardAbsent<T>(s: seq<T>, x: T)
    requires x !in s && |s| > 0
    ensures BringForward(s, x) == [x] + s[..|s| - 1]
    ensures multiset(BringForward(s, x)) == multiset(s) - multiset{s[|s| - 1]} + multiset{x}
  {
    var removed := SpliceRemove(s, -1);
    assert removed == s[..|s| - 1];
    assert SpliceInsert(removed, 0, x) == [x] + removed;
    assert s == removed + [s[|s| - 1]];
  }

  /** Send-backward of the bottom object, or of an absent one, changes nothing. */
  lemma SendBackwardBottomIsNoOp<T>(s: seq<T>, x: T)
    requires IndexOf(s, x) <= 0
    ensures SendBackward(s, x) == s
  {
  }

  /** Send-backward of an object above the bottom swaps it with the one below. */
  lemma SendBackwardSwaps<T>(s: seq<T>, x: T)
    requires IndexOf(s, x) > 0
    ensures SendBackward(s, x) == Swap(s, IndexOf(s, x) - 1)
  {
    SpliceDownIsSwap(s, IndexOf(s, x));
  }

  /** For a present object, both moves only permute the array. */
  lemma ReorderIsPermutation<T>(s: seq<T>, x: T)
    requires x in s
    ensures multiset(BringForward(s, x)) == multiset(s)
    ensures multiset(SendBackward(s, x)) == multiset(s)
  {
    var i := IndexOf(s, x);
    if i < |s| - 1 {
      BringForwardSwaps(s, x);
    }
    if i > 0 {
      SendBackwardSwaps(s, x);
    }
  }

  /** After swapping `x` up from its first position, its first position is one higher. */
  lemma IndexOfAfterSwapUp<T>(s: seq<T>, x: T, i: nat)
    requires i == IndexOf(s, x) && i < |s| - 1 && s[i + 1] != x
    ensures IndexOf(Swap(s, i), x) == i + 1
  {
    var t := Swap(s, i);
    assert t[..i + 1] == s[..i] + [s[i + 1]];
    IndexOfIs(t, x, i + 1);
  }

  /** After swapping `x` down from its first position, its first position is one lower. */
  lemma IndexOfAfterSwapDown<T>(s: seq<T>, x: T, i: nat)
    requires i == IndexOf(s, x) && i > 0
    ensures IndexOf(Swap(s, i - 1), x) == i - 1
  {
    var t := Swap(s, i - 1);
    assert t[..i - 1] == s[..i - 1];
    IndexOfIs(t, x, i - 1);
  }

  /**
   * Bring-forward then send-backward of a present object below the top
   * restores the array, provided the object above it is a different one.
   */
  lemma ForwardThenBackward<T>(s: seq<T>, x: T)
    requires 0 <= IndexOf(s, x) < |s| - 1
    requires s[IndexOf(s, x) + 1] != x
    ensures SendBackward(BringForward(s, x), x) == s
  {
    var i := IndexOf(s, x);
    BringForwardSwaps(s, x);
    IndexOfAfterSwapUp(s, x, i);
    SendBackwardSwaps(Swap(s, i), x);
    SwapTwice(s, i);
  }

  /** Send-backward then bring-forward of an object above the bottom restores the array. */
  lemma BackwardThenForward<T>(s: seq<T>, x: T)
    requires IndexOf(s, x) > 0
    ensures BringForward(SendBackward(s, x), x) == s
  {
    var i := IndexOf(s, x);
    SendBackwardSwaps(s, x);
    IndexOfAfterSwapDown(s, x, i);
    BringForwardSwaps(Swap(s, i - 1), x);
    SwapTwice(s, i - 1);
  }

  /**
   * The evident intent of bring-forward: an object that is not in the array
   * leaves it alone, otherwise it moves as the code moves it.
   */
  function BringForwardIntended<T(==)>(s: seq<T>, x: T): (r: seq<T>)
    ensures multiset(r) == multiset(s)
    ensures x !in s ==> r == s
    ensures 0 <= IndexOf(s, x) < |s| - 1 ==> r == Swap(s, IndexOf(s, x))
    ensures IndexOf(s, x) == |s| - 1 ==> r == s
  {
    if x in s then
      ReorderIsPermutation(s, x);
      var i := IndexOf(s, x);
      if i < |s| - 1 then BringForwardSwaps(s, x); BringForward(s, x)
      else BringForward(s, x)
    else s
  }
}
