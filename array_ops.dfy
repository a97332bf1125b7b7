/**
 * The JavaScript Array operations the handlers rely on, as defined by
 * ECMA-262 (section 23.1.3 "Properties of the Array Prototype Object"):
 * `indexOf`, one-element `splice` removal and insertion, and the swap of two
 * neighbouring slots through a temporary.
 */
module ArrayOps {

  /** `s.indexOf(x)`: the first position holding `x`, or -1. */
  function IndexOf<T(==)>(s: seq<T>, x: T): (r: int)
    ensures -1 <= r < |s|
    ensures r >= 0 ==> s[r] == x && x !in s[..r]
    ensures r == -1 <==> x !in s
  {
    if |s| == 0 then -1
    else if s[0] == x then 0
    else
      var r := IndexOf(s[1..], x);
      assert s == [s[0]] + s[1..];
      if r == -1 then -1
      else
        assert s[..r + 1] == [s[0]] + s[1..][..r];
        r + 1
  }

  /** The first position holding `x` is the one `IndexOf` reports. */
  lemma IndexOfIs<T>(s: seq<T>, x: T, j: nat)
    requires j < |s| && s[j] == x && x !in s[..j]
    ensures IndexOf(s, x) == j
  {
  }

  /**
   * The index `splice(start, …)` acts on: a negative start counts from the
   * end (clamped at 0), a start past the end is clamped to the length.
   */
  function SpliceStart(len: nat, start: int): (a: nat)
    ensures a <= len
    ensures 0 <= start <= len ==> a == start
    ensures start < 0 && len + start >= 0 ==> a == len + start
    ensures start < 0 && len + start < 0 ==> a == 0
    ensures start > len ==> a == len
  {
    if start < 0 then (if len + start < 0 then 0 else len + start)
    else if start > len then len
    else start
  }

  /** `s.splice(start, 1)`: removes the element at the normalised start, if any. */
  function SpliceRemove<T>(s: seq<T>, start: int): (r: seq<T>)
    ensures var a := SpliceStart(|s|, start);
      if a < |s| then |r| == |s| - 1 && r[..a] == s[..a] && r[a..] == s[a + 1..]
      else r == s
  {
    var a := SpliceStart(|s|, start);
    if a < |s| then s[..a] + s[a + 1..] else s
  }

  /** `s.splice(start, 0, x)`: inserts `x` before the element at the normalised start. */
  function SpliceInsert<T>(s: seq<T>, start: int, x: T): (r: seq<T>)
    ensures var a := SpliceStart(|s|, start);
      |r| == |s| + 1 && r[a] == x && r[..a] == s[..a] && r[a + 1..] == s[a..]
  {
    var a := SpliceStart(|s|, start);
    s[..a] + [x] + s[a..]
  }

  /**
   * Removing the first occurrence of `x` by `indexOf` then `splice(i, 1)`;
   * nothing happens when `x` is absent.
   */
  function RemoveFirst<T(==)>(s: seq<T>, x: T): (r: seq<T>)
    ensures x !in s ==> r == s
    ensures x in s ==> |r| == |s| - 1 && multiset(r) == multiset(s) - multiset{x}
    ensures x in s ==> exists i :: 0 <= i < |s| && s[i] == x && x !in s[..i] && r == s[..i] + s[i + 1..]
  {
    var i := IndexOf(s, x);
    if i == -1 then s
    else
      var r := SpliceRemove(s, i);
      assert s == s[..i] + [x] + s[i + 1..];
      assert r == s[..i] + s[i + 1..];
      r
  }

  /**
   * `r` is `s` with the elements at `i` and `i + 1` exchanged and every
   * other position untouched.
   */
  ghost predicate Swapped<T>(s: seq<T>, r: seq<T>, i: int) {
    && 0 <= i < |s| - 1
    && |r| == |s|
    && r[i] == s[i + 1]
    && r[i + 1] == s[i]
    && forall k :: 0 <= k < |s| && k != i && k != i + 1 ==> r[k] == s[k]
  }

  /** Exchanges the neighbours at `i` and `i + 1`; the elements are a permutation of `s`. */
  function Swap<T>(s: seq<T>, i: nat): (r: seq<T>)
    requires i < |s| - 1
    ensures Swapped(s, r, i)
    ensures multiset(r) == multiset(s)
  {
    var r := s[..i] + [s[i + 1], s[i]] + s[i + 2..];
    assert s == s[..i] + [s[i], s[i + 1]] + s[i + 2..];
    assert multiset([s[i + 1], s[i]]) == multiset([s[i], s[i + 1]]);
    r
  }

  /** A swap is determined by its position: `Swapped` pins down the result. */
  lemma SwappedIsSwap<T>(s: seq<T>, r: seq<T>, i: nat)
    requires Swapped(s, r, i)
    ensures r == Swap(s, i)
  {
    var t := Swap(s, i);
    forall k | 0 <= k < |r| ensures r[k] == t[k] {
    }
  }

  /** Swapping the same neighbours twice gives back the original sequence. */
  lemma SwapTwice<T>(s: seq<T>, i: nat)
    requires i < |s| - 1
    ensures Swap(Swap(s, i), i) == s
  {
    var t := Swap(Swap(s, i), i);
    assert Swapped(Swap(s, i), t, i);
    forall k | 0 <= k < |s| ensures t[k] == s[k] {
    }
  }
}
