/** The handlerGroups key list: a slice of group keys that is appended to
    and then re-sorted with sort.Ints. */
module GroupKeys {

  /** Ascending, not necessarily strictly: a key can occur twice. */
  predicate Sorted(s: seq<int>) {
    forall i, j :: 0 <= i < j < |s| ==> s[i] <= s[j]
  }

  /** `append(s, x)` followed by `sort.Ints`, on a slice that was already
      sorted: the result is sorted and holds the old keys and `x`. */
  function Insert(s: seq<int>, x: int): (r: seq<int>)
    requires Sorted(s)
    ensures Sorted(r)
    ensures multiset(r) == multiset(s) + multiset{x}
    ensures forall k :: 0 <= k < |r| ==> r[k] == x || r[k] in s
  {
    if s == [] || x <= s[0] then
      SortedCons(x, s);
      [x] + s
    else
      var tail := s[1..];
      var rest := Insert(tail, x);
      assert s == [s[0]] + tail;
      assert multiset(s) == multiset{s[0]} + multiset(tail);
      SortedCons(s[0], rest);
      [s[0]] + rest
  }

  /** A key no greater than any element of a sorted list can go in front of it. */
  lemma SortedCons(h: int, t: seq<int>)
    requires Sorted(t) && forall k :: 0 <= k < |t| ==> h <= t[k]
    ensures Sorted([h] + t)
  {
    var r := [h] + t;
    forall i, j | 0 <= i < j < |r| ensures r[i] <= r[j] {
      assert r[j] == t[j - 1];
      if i > 0 {
        assert r[i] == t[i - 1];
      }
    }
  }

  /** The head of a sorted sequence is its least element. */
  lemma SortedHeadIsLeast(a: seq<int>, x: int)
    requires Sorted(a) && x in multiset(a)
    ensures a != [] && a[0] <= x
  {
    var i :| 0 <= i < |a| && a[i] == x;
  }

  lemma SortedTail(a: seq<int>)
    requires Sorted(a) && a != []
    ensures Sorted(a[1..])
  {
    var t := a[1..];
    forall i, j | 0 <= i < j < |t| ensures t[i] <= t[j] {
      assert t[i] == a[i + 1] && t[j] == a[j + 1];
    }
  }

  /** A sorted sequence is determined by its multiset of elements. */
  lemma {:induction false} SortedPermutationUnique(a: seq<int>, b: seq<int>)
    requires Sorted(a) && Sorted(b) && multiset(a) == multiset(b)
    ensures a == b
    decreases |a|
  {
    if a == [] {
      assert |b| == |multiset(b)| == 0;
    } else {
      SortedSameHead(a, b);
      DropHead(a);
      DropHead(b);
      SortedTail(a);
      SortedTail(b);
      SortedPermutationUnique(a[1..], b[1..]);
      assert a == [a[0]] + a[1..] && b == [b[0]] + b[1..];
    }
  }

  /** Two sorted sequences with the same elements start with the same key. */
  lemma SortedSameHead(a: seq<int>, b: seq<int>)
    requires Sorted(a) && Sorted(b) && multiset(a) == multiset(b) && a != []
    ensures b != [] && a[0] == b[0]
  {
    assert a[0] in multiset(a);
    SortedHeadIsLeast(b, a[0]);
    assert b[0] in multiset(b);
    SortedHeadIsLeast(a, b[0]);
  }

  lemma DropHead(a: seq<int>)
    requires a != []
    ensures multiset(a[1..]) == multiset(a) - multiset{a[0]}
  {
    assert a == [a[0]] + a[1..];
  }

  /** Whatever sorted arrangement sort.Ints picks for `s + [x]` is Insert(s, x). */
  lemma InsertIsSortInts(s: seq<int>, x: int, sorted: seq<int>)
    requires Sorted(s) && Sorted(sorted) && multiset(sorted) == multiset(s + [x])
    ensures sorted == Insert(s, x)
  {
    SortedPermutationUnique(sorted, Insert(s, x));
  }

  /** Insert loses no key: the new key and every old key are in the result. */
  lemma InsertKeepsKeys(s: seq<int>, x: int)
    requires Sorted(s)
    ensures x in Insert(s, x)
    ensures forall y :: y in s ==> y in Insert(s, x)
  {
    var r := Insert(s, x);
    assert x in multiset(r);
    forall y | y in s ensures y in r {
      assert y in multiset(s);
      assert y in multiset(r);
    }
  }

  /** Inserting a key that is already present adds a second copy: the list is
      not kept free of duplicates. */
  lemma InsertPresentKeyDuplicates(s: seq<int>, x: int)
    requires Sorted(s) && x in s
    ensures multiset(Insert(s, x))[x] >= 2
  {
    assert x in multiset(s);
  }
}
