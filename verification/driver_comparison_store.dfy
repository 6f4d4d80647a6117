/**
 * The driver-comparison selection: the racing numbers picked for comparison,
 * in the order they were picked. Toggling a number adds or removes it.
 */
module DriverComparisonStore {

  /** `s.filter(num => num !== x)`: every occurrence of `x` removed, the rest in order. */
  function RemoveAll(s: seq<string>, x: string): (r: seq<string>)
    ensures x !in r
    ensures forall y :: y in r <==> y in s && y != x
    ensures |r| <= |s|
  {
    if |s| == 0 then []
    else if s[0] == x then RemoveAll(s[1..], x)
    else [s[0]] + RemoveAll(s[1..], x)
  }

  /** Each racing number is selected at most once. */
  predicate NoDuplicates(s: seq<string>) {
    forall i, j :: 0 <= i < j < |s| ==> s[i] != s[j]
  }

  /** The selection after toggling `x`. */
  function Toggled(s: seq<string>, x: string): seq<string> {
    if x in s then RemoveAll(s, x) else s + [x]
  }

  /** Removing a number that is not selected changes nothing. */
  lemma {:induction false} RemoveAbsent(s: seq<string>, x: string)
    requires x !in s
    ensures RemoveAll(s, x) == s
  {
    if |s| > 0 {
      RemoveAbsent(s[1..], x);
    }
  }

  /** Removing keeps every occurrence of every other number and drops every
    * occurrence of the removed one, so the length falls by that count. */
  lemma {:induction false} RemoveKeepsOthers(s: seq<string>, x: string)
    ensures forall y :: y != x ==> multiset(RemoveAll(s, x))[y] == multiset(s)[y]
    ensures multiset(RemoveAll(s, x))[x] == 0
    ensures |RemoveAll(s, x)| == |s| - multiset(s)[x]
  {
    if |s| > 0 {
      RemoveKeepsOthers(s[1..], x);
      assert s == [s[0]] + s[1..];
    }
  }

  /** Removing from a duplicate-free selection keeps it duplicate-free. */
  lemma {:induction false} RemoveNoDuplicates(s: seq<string>, x: string)
    requires NoDuplicates(s)
    ensures NoDuplicates(RemoveAll(s, x))
  {
    if |s| > 0 {
      RemoveNoDuplicates(s[1..], x);
      if s[0] != x {
        var rest := RemoveAll(s[1..], x);
        assert s[0] !in s[1..];
        assert s[0] !in rest;
        assert forall j :: 0 <= j < |rest| ==> rest[j] in rest;
      }
    }
  }

  /** Toggling keeps the selection duplicate-free. */
  lemma ToggleNoDuplicates(s: seq<string>, x: string)
    requires NoDuplicates(s)
    ensures NoDuplicates(Toggled(s, x))
  {
    if x in s {
      RemoveNoDuplicates(s, x);
    } else {
      assert forall i :: 0 <= i < |s| ==> s[i] in s;
    }
  }

  /** Toggling an unselected number twice restores the selection; toggling a
    * selected one twice moves it to the end. */
  lemma ToggleTwice(s: seq<string>, x: string)
    ensures x !in s ==> Toggled(Toggled(s, x), x) == s
    ensures x in s ==> Toggled(Toggled(s, x), x) == RemoveAll(s, x) + [x]
  {
    if x !in s {
      assert x in s + [x];
      RemoveAbsent(s, x);
      RemoveAppended(s, x);
    }
  }

  lemma {:induction false} RemoveAppended(s: seq<string>, x: string)
    ensures RemoveAll(s + [x], x) == RemoveAll(s, x)
  {
    if |s| == 0 {
      assert [x][1..] == [];
    } else {
      assert (s + [x])[1..] == s[1..] + [x];
      RemoveAppended(s[1..], x);
    }
  }

  class DriverComparisonStore {
    var selectedDriverNumbers: seq<string>

    /** The selection never names a racing number twice. */
    ghost predicate Valid()
      reads this
    {
      NoDuplicates(selectedDriverNumbers)
    }

    constructor()
      ensures selectedDriverNumbers == []
      ensures Valid()
    {
      selectedDriverNumbers := [];
    }

    /** `toggleDriver`: a selected number is removed everywhere; an unselected one goes last. */
    method ToggleDriver(racingNumber: string)
      requires Valid()
      modifies this
      ensures Valid()
      ensures racingNumber in old(selectedDriverNumbers) ==> selectedDriverNumbers == RemoveAll(old(selectedDriverNumbers), racingNumber)
      ensures racingNumber !in old(selectedDriverNumbers) ==> selectedDriverNumbers == old(selectedDriverNumbers) + [racingNumber]
    {
      ToggleNoDuplicates(selectedDriverNumbers, racingNumber);
      var isSelected := racingNumber in selectedDriverNumbers;
      selectedDriverNumbers := if isSelected then RemoveAll(selectedDriverNumbers, racingNumber)
                               else selectedDriverNumbers + [racingNumber];
    }

    /** `clearSelection`. */
    method ClearSelection()
      modifies this
      ensures selectedDriverNumbers == []
      ensures Valid()
    {
      selectedDriverNumbers := [];
    }

    /** `isDriverSelected`. */
    function IsDriverSelected(racingNumber: string): (r: bool)
      reads this
      ensures r <==> exists i :: 0 <= i < |selectedDriverNumbers| && selectedDriverNumbers[i] == racingNumber
    {
      racingNumber in selectedDriverNumbers
    }

    /** `getSelectedCount`: the length of the selection, which is the number of
      * distinct drivers selected. */
    function GetSelectedCount(): (r: nat)
      requires Valid()
      reads this
      ensures r == |selectedDriverNumbers|
      ensures r == |set i | 0 <= i < |selectedDriverNumbers| :: selectedDriverNumbers[i]|
    {
      DistinctCount(selectedDriverNumbers);
      |selectedDriverNumbers|
    }
  }

  /** A duplicate-free sequence has as many elements as distinct values. */
  lemma {:induction false} DistinctCount(s: seq<string>)
    ensures NoDuplicates(s) ==> |s| == |set i | 0 <= i < |s| :: s[i]|
  {
    if |s| > 0 && NoDuplicates(s) {
      var init := s[..|s| - 1];
      assert NoDuplicates(init);
      DistinctCount(init);
      var a := set i | 0 <= i < |init| :: init[i];
      var b := set i | 0 <= i < |s| :: s[i];
      assert b == a + {s[|s| - 1]};
      assert s[|s| - 1] !in a;
    }
  }
}
