/**
 * The race-control messages store: a JavaScript `Map` from message key to
 * message, which remembers the order keys were first inserted in. An update
 * is an object whose `Messages` member holds the messages to set; every other
 * top-level member is ignored.
 */
module RaceControlMessagesStore {
  import opened Wrappers
  import opened Json

  /** A `Map<string, RaceControlMessage>`: its keys in insertion order, and the value of each. */
  datatype OrderedMap = OrderedMap(keys: seq<string>, values: map<string, Json>)
  {
    /** Each key is listed once, and the listed keys are exactly the stored ones. */
    ghost predicate Valid() {
      && (forall i, j :: 0 <= i < j < |keys| ==> keys[i] != keys[j])
      && (forall k :: k in values <==> k in keys)
    }
  }

  /** `map.set(k, v)`: a new key goes last; an existing key keeps its place. */
  function Set(m: OrderedMap, k: string, v: Json): (r: OrderedMap)
    ensures r.values == m.values[k := v]
    ensures k in m.values ==> r.keys == m.keys
    ensures k !in m.values ==> r.keys == m.keys + [k]
  {
    OrderedMap(if k in m.values then m.keys else m.keys + [k], m.values[k := v])
  }

  /** The messages one after another, as the `forEach` over them sets them. */
  function SetAll(m: OrderedMap, entries: seq<(string, Json)>): OrderedMap {
    if |entries| == 0 then m
    else
      var last := entries[|entries| - 1];
      Set(SetAll(m, entries[..|entries| - 1]), last.0, last.1)
  }

  /** The message each key ends up with: the last one given for it. */
  function LastValues(entries: seq<(string, Json)>): (r: map<string, Json>)
    ensures forall k :: k in r <==> exists i :: 0 <= i < |entries| && entries[i].0 == k
  {
    if |entries| == 0 then map[]
    else
      var last := entries[|entries| - 1];
      var r := LastValues(entries[..|entries| - 1])[last.0 := last.1];
      assert forall i :: 0 <= i < |entries| - 1 ==> entries[..|entries| - 1][i] == entries[i];
      r
  }

  /** An update message: its `Messages` member (in key order), if it has one,
    * and its other top-level members. */
  datatype RaceControlUpdate = RaceControlUpdate(Messages: Option<seq<(string, Json)>>, others: map<string, Json>)

  class RaceControlMessagesStore {
    var Messages: OrderedMap

    ghost predicate Valid()
      reads this
    {
      Messages.Valid()
    }

    constructor()
      ensures Valid()
      ensures Messages == OrderedMap([], map[])
    {
      Messages := OrderedMap([], map[]);
    }

    /** `addRaceControlMessage`: copies the map and sets every message of the
      * update's `Messages` member in order; other members change nothing. */
    method AddRaceControlMessage(newMessages: RaceControlUpdate)
      requires Valid()
      modifies this
      ensures Valid()
      ensures newMessages.Messages.Some? ==> Messages == SetAll(old(Messages), newMessages.Messages.value)
      ensures newMessages.Messages.None? ==> Messages == old(Messages)
    {
      var updatedMessages := Messages;
      if newMessages.Messages.Some? {
        var entries := newMessages.Messages.value;
        for n := 0 to |entries|
          invariant updatedMessages == SetAll(Messages, entries[..n])
        {
          assert entries[..n + 1][..n] == entries[..n];
          updatedMessages := Set(updatedMessages, entries[n].0, entries[n].1);
        }
        assert entries[..|entries|] == entries;
        SetAllValid(Messages, entries);
      }
      Messages := updatedMessages;
    }
  }

  /** Setting messages keeps each key listed once and only stored keys listed. */
  lemma {:induction false} SetAllValid(m: OrderedMap, entries: seq<(string, Json)>)
    requires m.Valid()
    ensures SetAll(m, entries).Valid()
  {
    if |entries| > 0 {
      SetAllValid(m, entries[..|entries| - 1]);
    }
  }

  /** Afterwards the stored messages are the earlier ones overridden by the
    * update's, the last message given for a key winning: every pair of the
    * update is present and every stored key the update does not name keeps its message. */
  lemma {:induction false} SetAllValues(m: OrderedMap, entries: seq<(string, Json)>)
    ensures SetAll(m, entries).values == m.values + LastValues(entries)
  {
    if |entries| > 0 {
      var init, last := entries[..|entries| - 1], entries[|entries| - 1];
      SetAllValues(m, init);
      OverrideThenSet(m.values, LastValues(init), last.0, last.1);
    }
  }

  /** Setting a key after overriding is overriding with the key already set. */
  lemma OverrideThenSet(a: map<string, Json>, b: map<string, Json>, k: string, v: Json)
    ensures (a + b)[k := v] == a + b[k := v]
  {
    var left, right := (a + b)[k := v], a + b[k := v];
    assert left.Keys == right.Keys;
    forall x | x in left
      ensures left[x] == right[x]
    {
    }
  }

  /** Keys already stored keep their positions (the old order is a prefix);
    * the keys after them are new, each added once. */
  lemma {:induction false} SetAllKeys(m: OrderedMap, entries: seq<(string, Json)>)
    requires m.Valid()
    ensures var r := SetAll(m, entries);
      && |m.keys| <= |r.keys|
      && r.keys[..|m.keys|] == m.keys
      && (forall i :: |m.keys| <= i < |r.keys| ==> r.keys[i] !in m.values)
  {
    if |entries| > 0 {
      var init := entries[..|entries| - 1];
      SetAllKeys(m, init);
      SetAllValid(m, init);
      SetAllValues(m, init);
      var before := SetAll(m, init);
      var last := entries[|entries| - 1];
      if last.0 !in before.values {
        assert last.0 !in m.values;
        assert (before.keys + [last.0])[..|m.keys|] == before.keys[..|m.keys|];
      }
    }
  }

  /** With distinct keys in the update, every message given is stored under its key. */
  lemma DistinctEntriesStored(m: OrderedMap, entries: seq<(string, Json)>)
    requires forall i, j :: 0 <= i < j < |entries| ==> entries[i].0 != entries[j].0
    ensures forall i :: 0 <= i < |entries| ==>
      entries[i].0 in SetAll(m, entries).values && SetAll(m, entries).values[entries[i].0] == entries[i].1
  {
    SetAllValues(m, entries);
    LastValuesDistinct(entries);
  }

  lemma {:induction false} LastValuesDistinct(entries: seq<(string, Json)>)
    requires forall i, j :: 0 <= i < j < |entries| ==> entries[i].0 != entries[j].0
    ensures forall i :: 0 <= i < |entries| ==> LastValues(entries)[entries[i].0] == entries[i].1
  {
    if |entries| > 0 {
      var init := entries[..|entries| - 1];
      LastValuesDistinct(init);
      forall i | 0 <= i < |entries|
        ensures LastValues(entries)[entries[i].0] == entries[i].1
      {
        if i < |entries| - 1 {
          assert init[i] == entries[i];
        }
      }
    }
  }
}
