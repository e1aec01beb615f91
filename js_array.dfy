/**
 * `Array.prototype.sort(comparefn)`: sorts an array in place so that
 * `comparefn(x, y) <= 0` for neighbours. The comparator must answer
 * consistently in both directions (a positive answer for (x, y) means a
 * negative one for (y, x)); the ordering of whole runs follows from a
 * transitivity lemma about the particular comparator.
 */
module JsArray {

  /** A positive answer for (x, y) means a negative one for (y, x). */
  ghost predicate Antisymmetric<T(!new)>(cmp: (T, T) -> int) {
    forall x, y :: cmp(x, y) > 0 ==> cmp(y, x) < 0
  }

  /** Every element is ordered with its right neighbour. */
  ghost predicate AdjacentOrdered<T>(s: seq<T>, cmp: (T, T) -> int) {
    forall k :: 0 <= k < |s| - 1 ==> cmp(s[k], s[k + 1]) <= 0
  }

  /** Every element is ordered with every element to its right. */
  ghost predicate Ordered<T>(s: seq<T>, cmp: (T, T) -> int) {
    forall i, j :: 0 <= i < j < |s| ==> cmp(s[i], s[j]) <= 0
  }

  /** "Ordered before or with" is transitive on the elements of `s`. */
  ghost predicate TransitiveOn<T>(s: seq<T>, cmp: (T, T) -> int) {
    forall i, j, k :: 0 <= i < |s| && 0 <= j < |s| && 0 <= k < |s| && cmp(s[i], s[j]) <= 0 && cmp(s[j], s[k]) <= 0
      ==> cmp(s[i], s[k]) <= 0
  }

  /** Neighbour order extends to all pairs when the comparator is transitive on the elements. */
  lemma {:induction false} AdjacentToOrdered<T>(s: seq<T>, cmp: (T, T) -> int)
    requires TransitiveOn(s, cmp) && AdjacentOrdered(s, cmp)
    ensures Ordered(s, cmp)
  {
    forall i, j | 0 <= i < j < |s|
      ensures cmp(s[i], s[j]) <= 0
    {
      OrderedPair(s, cmp, i, j);
    }
  }

  lemma {:induction false} OrderedPair<T>(s: seq<T>, cmp: (T, T) -> int, i: nat, j: nat)
    requires TransitiveOn(s, cmp) && AdjacentOrdered(s, cmp)
    requires i < j < |s|
    ensures cmp(s[i], s[j]) <= 0
    decreases j - i
  {
    if i + 1 < j {
      OrderedPair(s, cmp, i, j - 1);
      assert cmp(s[j - 1], s[j]) <= 0;
    }
  }

  /** `s` with positions `j - 1` and `j` exchanged. */
  function Swapped<T>(s: seq<T>, j: nat): (t: seq<T>)
    requires 0 < j < |s|
    ensures |t| == |s| && t[j - 1] == s[j] && t[j] == s[j - 1]
    ensures forall k :: 0 <= k < |s| && k != j - 1 && k != j ==> t[k] == s[k]
    ensures multiset(t) == multiset(s)
  {
    s[j - 1 := s[j]][j := s[j - 1]]
  }

  /** The first `n` elements are ordered neighbour by neighbour. */
  ghost predicate PrefixOrdered<T>(s: seq<T>, cmp: (T, T) -> int, n: nat) {
    forall k :: 0 <= k < n - 1 && k + 1 < |s| ==> cmp(s[k], s[k + 1]) <= 0
  }

  /**
   * Element `i` is being moved down and now sits at `j`: the elements
   * before it and those after it up to `i` are ordered, and its two
   * neighbours are ordered with each other.
   */
  ghost predicate Inserting<T>(s: seq<T>, cmp: (T, T) -> int, i: nat, j: nat) {
    && j <= i < |s|
    && (forall k :: 0 <= k < j - 1 ==> cmp(s[k], s[k + 1]) <= 0)
    && (forall k :: j <= k < i ==> cmp(s[k], s[k + 1]) <= 0)
    && (0 < j < i ==> cmp(s[j - 1], s[j + 1]) <= 0)
  }

  /** One swap moves the element one place down and keeps the insertion state. */
  lemma SwapStep<T(!new)>(s: seq<T>, cmp: (T, T) -> int, i: nat, j: nat)
    requires Antisymmetric(cmp) && Inserting(s, cmp, i, j)
    requires 0 < j && cmp(s[j - 1], s[j]) > 0
    ensures Inserting(Swapped(s, j), cmp, i, j - 1)
  {
    var t := Swapped(s, j);
    assert cmp(t[j - 1], t[j]) < 0;
    forall k | j - 1 <= k < i
      ensures cmp(t[k], t[k + 1]) <= 0
    {
      if k == j && j < i {
        assert cmp(t[k], t[k + 1]) == cmp(s[j - 1], s[j + 1]);
      }
    }
    if 0 < j - 1 {
      assert cmp(t[j - 2], t[j]) == cmp(s[j - 2], s[j - 1]);
    }
  }

  /** Once the element stops moving, the first `i + 1` elements are ordered. */
  lemma FinishInsert<T>(s: seq<T>, cmp: (T, T) -> int, i: nat, j: nat)
    requires Inserting(s, cmp, i, j)
    requires j == 0 || cmp(s[j - 1], s[j]) <= 0
    ensures PrefixOrdered(s, cmp, i + 1)
  {
  }

  /** Sorts `a` in place (insertion sort by neighbour swaps). */
  method SortInPlace<T(!new)>(a: array<T>, cmp: (T, T) -> int)
    requires Antisymmetric(cmp)
    modifies a
    ensures AdjacentOrdered(a[..], cmp)
    ensures multiset(a[..]) == multiset(old(a[..]))
  {
    var i := 0;
    while i < a.Length
      invariant 0 <= i <= a.Length
      invariant PrefixOrdered(a[..], cmp, i)
      invariant multiset(a[..]) == multiset(old(a[..]))
    {
      var j := i;
      while j > 0 && cmp(a[j - 1], a[j]) > 0
        invariant Inserting(a[..], cmp, i, j)
        invariant multiset(a[..]) == multiset(old(a[..]))
      {
        ghost var before := a[..];
        SwapStep(before, cmp, i, j);
        a[j - 1], a[j] := a[j], a[j - 1];
        assert a[..] == Swapped(before, j);
        j := j - 1;
      }
      FinishInsert(a[..], cmp, i, j);
      i := i + 1;
    }
  }
}
