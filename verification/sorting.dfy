/**
 * `Array.prototype.sort` with a comparator of the form `(a, b) => key(a) - key(b)`:
 * a stable sort by an integer key, modelled as insertion sort.
 */
module Sorting {

  /** Non-decreasing in the key. */
  predicate SortedBy<T>(s: seq<T>, key: T -> int) {
    forall i, j :: 0 <= i < j < |s| ==> key(s[i]) <= key(s[j])
  }

  /** Inserts `x` after every element whose key is not larger than its own. */
  function Insert<T>(x: T, s: seq<T>, key: T -> int): (r: seq<T>)
    requires SortedBy(s, key)
    ensures SortedBy(r, key)
    ensures multiset(r) == multiset(s) + multiset{x}
    ensures |r| == |s| + 1
  {
    if s == [] then [x]
    else if key(x) < key(s[0]) then [x] + s
    else
      var tail := Insert(x, s[1..], key);
      ConsSorted(s, x, tail, key);
      [s[0]] + tail
  }

  /** Every element after the head of a sorted list has a key at least the head's. */
  lemma HeadIsLeast<T>(s: seq<T>, key: T -> int)
    requires SortedBy(s, key) && s != []
    ensures forall y :: y in s[1..] ==> key(s[0]) <= key(y)
  {
    forall y | y in s[1..]
      ensures key(s[0]) <= key(y)
    {
      var k :| 0 <= k < |s[1..]| && s[1..][k] == y;
      assert s[k + 1] == y;
    }
  }

  /** Every element of a list built from `rest` and `x` is `x` or comes from `rest`. */
  lemma FromRestOrNew<T>(x: T, rest: seq<T>, tail: seq<T>)
    requires multiset(tail) == multiset(rest) + multiset{x}
    ensures forall i :: 0 <= i < |tail| ==> tail[i] == x || tail[i] in rest
  {
    forall i | 0 <= i < |tail|
      ensures tail[i] == x || tail[i] in rest
    {
      assert tail[i] in multiset(tail);
    }
  }

  /** Putting the head back in front of the sorted insertion into the rest. */
  lemma ConsSorted<T>(s: seq<T>, x: T, tail: seq<T>, key: T -> int)
    requires SortedBy(s, key) && s != [] && key(s[0]) <= key(x)
    requires SortedBy(tail, key) && multiset(tail) == multiset(s[1..]) + multiset{x}
    ensures SortedBy([s[0]] + tail, key)
    ensures multiset([s[0]] + tail) == multiset(s) + multiset{x}
  {
    HeadIsLeast(s, key);
    FromRestOrNew(x, s[1..], tail);
    assert forall i :: 0 <= i < |tail| ==> key(s[0]) <= key(tail[i]);
    assert s == [s[0]] + s[1..];
  }

  /** The elements of `s` ordered by `key`, equal keys keeping their relative order. */
  function SortBy<T>(s: seq<T>, key: T -> int): (r: seq<T>)
    ensures SortedBy(r, key)
    ensures multiset(r) == multiset(s)
    ensures |r| == |s|
  {
    if s == [] then []
    else
      assert s == s[..|s| - 1] + [s[|s| - 1]];
      Insert(s[|s| - 1], SortBy(s[..|s| - 1], key), key)
  }

  /** `s.reverse()`. */
  function Reverse<T>(s: seq<T>): (r: seq<T>)
    ensures |r| == |s|
    ensures forall i :: 0 <= i < |s| ==> r[i] == s[|s| - 1 - i]
  {
    if s == [] then [] else Reverse(s[1..]) + [s[0]]
  }

  /** Strictly increasing in the key: sorted, and no two elements share a key. */
  predicate StrictlySortedBy<T>(s: seq<T>, key: T -> int) {
    forall i, j :: 0 <= i < j < |s| ==> key(s[i]) < key(s[j])
  }

  /** No two positions hold elements with the same key. */
  predicate DistinctKeys<T>(s: seq<T>, key: T -> int) {
    forall i, j :: 0 <= i < j < |s| ==> key(s[i]) != key(s[j])
  }

  /** Inserting an element whose key is new into a strictly sorted list keeps it strictly sorted. */
  lemma {:induction false} InsertStrict<T>(x: T, s: seq<T>, key: T -> int)
    requires StrictlySortedBy(s, key)
    requires forall i :: 0 <= i < |s| ==> key(s[i]) != key(x)
    ensures StrictlySortedBy(Insert(x, s, key), key)
  {
    if s != [] && key(x) >= key(s[0]) {
      var rest := s[1..];
      assert forall i :: 0 <= i < |rest| ==> key(rest[i]) != key(x) by {
        forall i | 0 <= i < |rest| ensures key(rest[i]) != key(x) {
          assert rest[i] == s[i + 1];
        }
      }
      assert StrictlySortedBy(rest, key);
      InsertStrict(x, rest, key);
      assert SortedBy(s, key);
      InsertUnfold(x, s, key);
      var tail := Insert(x, rest, key);
      assert key(s[0]) < key(x) by {
        assert key(s[0]) != key(x);
      }
      forall i | 0 <= i < |tail|
        ensures key(s[0]) < key(tail[i])
      {
        assert tail[i] in multiset(rest) + multiset{x};
        if tail[i] != x {
          var k :| 0 <= k < |rest| && rest[k] == tail[i];
          assert s[k + 1] == tail[i];
        }
      }
      StrictCons(s[0], tail, key);
    }
  }

  lemma StrictCons<T>(h: T, tail: seq<T>, key: T -> int)
    requires StrictlySortedBy(tail, key)
    requires forall i :: 0 <= i < |tail| ==> key(h) < key(tail[i])
    ensures StrictlySortedBy([h] + tail, key)
  {
  }

  /** Sorting a list whose keys are distinct gives a strictly increasing list. */
  lemma {:induction false} SortByStrict<T>(s: seq<T>, key: T -> int)
    requires DistinctKeys(s, key)
    ensures StrictlySortedBy(SortBy(s, key), key)
  {
    if s != [] {
      var init, last := s[..|s| - 1], s[|s| - 1];
      assert DistinctKeys(init, key);
      SortByStrict(init, key);
      var sorted := SortBy(init, key);
      forall i | 0 <= i < |sorted|
        ensures key(sorted[i]) != key(last)
      {
        assert sorted[i] in multiset(init);
        var k :| 0 <= k < |init| && init[k] == sorted[i];
        assert s[k] == init[k];
      }
      InsertStrict(last, sorted, key);
    }
  }

  /** `y` occurs somewhere before an occurrence of `x`. */
  predicate Before<T(==)>(r: seq<T>, y: T, x: T) {
    exists i, j :: 0 <= i < j < |r| && r[i] == y && r[j] == x
  }

  /** An element inserted later lands after every element already placed
    * with the same key: the sort is stable. */
  lemma {:induction false} InsertAfterTies<T>(x: T, s: seq<T>, key: T -> int, y: T)
    requires SortedBy(s, key)
    requires y in s && key(y) == key(x)
    ensures Before(Insert(x, s, key), y, x)
  {
    var k :| 0 <= k < |s| && s[k] == y;
    assert key(s[0]) <= key(x) by {
      assert k == 0 || key(s[0]) <= key(s[k]);
    }
    InsertUnfold(x, s, key);
    var tail := Insert(x, s[1..], key);
    if s[0] == y {
      BeforeHead(s[0], tail, x);
    } else {
      assert y == s[1..][k - 1];
      InsertAfterTies(x, s[1..], key, y);
      BeforeCons(s[0], tail, y, x);
    }
  }

  /** Inserting an element keeps every pair already in order in that order. */
  lemma {:induction false} InsertKeepsBefore<T>(x: T, s: seq<T>, key: T -> int, i: int, j: int)
    requires SortedBy(s, key) && 0 <= i < j < |s|
    ensures Before(Insert(x, s, key), s[i], s[j])
  {
    if key(x) < key(s[0]) {
      assert Insert(x, s, key) == [x] + s;
      assert ([x] + s)[i + 1] == s[i] && ([x] + s)[j + 1] == s[j];
    } else {
      InsertUnfold(x, s, key);
      var rest := s[1..];
      if i == 0 {
        assert s[j] in multiset(Insert(x, rest, key)) by {
          assert rest[j - 1] == s[j];
          assert s[j] in multiset(rest);
        }
        BeforeHead(s[0], Insert(x, rest, key), s[j]);
      } else {
        assert rest[i - 1] == s[i] && rest[j - 1] == s[j];
        InsertKeepsBefore(x, rest, key, i - 1, j - 1);
        BeforeCons(s[0], Insert(x, rest, key), s[i], s[j]);
      }
    }
  }

  /** The sort is stable: of two elements with equal keys, the earlier one
    * in the input is placed before the later one. */
  lemma {:induction false} SortByStable<T>(s: seq<T>, key: T -> int, i: int, j: int)
    requires 0 <= i < j < |s| && key(s[i]) == key(s[j])
    ensures Before(SortBy(s, key), s[i], s[j])
  {
    var init := s[..|s| - 1];
    var sorted := SortBy(init, key);
    assert SortBy(s, key) == Insert(s[|s| - 1], sorted, key);
    assert init[i] == s[i];
    if j == |s| - 1 {
      assert s[i] in sorted by {
        assert s[i] in multiset(init);
        assert s[i] in multiset(sorted);
      }
      InsertAfterTies(s[j], sorted, key, s[i]);
    } else {
      assert init[j] == s[j];
      SortByStable(init, key, i, j);
      var i', j' :| 0 <= i' < j' < |sorted| && sorted[i'] == s[i] && sorted[j'] == s[j];
      InsertKeepsBefore(s[|s| - 1], sorted, key, i', j');
    }
  }

  /** Inserting behind the head keeps the head first. */
  lemma InsertUnfold<T>(x: T, s: seq<T>, key: T -> int)
    requires SortedBy(s, key) && s != [] && key(s[0]) <= key(x)
    ensures SortedBy(s[1..], key)
    ensures Insert(x, s, key) == [s[0]] + Insert(x, s[1..], key)
  {
  }

  lemma BeforeHead<T>(y: T, tail: seq<T>, x: T)
    requires x in multiset(tail)
    ensures Before([y] + tail, y, x)
  {
    var j :| 0 <= j < |tail| && tail[j] == x;
    assert ([y] + tail)[0] == y && ([y] + tail)[j + 1] == x;
  }

  lemma BeforeCons<T>(h: T, tail: seq<T>, y: T, x: T)
    requires Before(tail, y, x)
    ensures Before([h] + tail, y, x)
  {
    var i, j :| 0 <= i < j < |tail| && tail[i] == y && tail[j] == x;
    assert ([h] + tail)[i + 1] == y && ([h] + tail)[j + 1] == x;
  }
}
