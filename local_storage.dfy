/** The search history kept in the browser's storage: one `"history"` slot
    holding the most recent searches, newest first, without duplicates.
    The slot is modelled as its parsed value (None when nothing is stored);
    the storage probe becomes the `available` flag. */
module LocalStorage {
  import opened Wrappers

  /** `HistoryEntry`: one search. */
  datatype Entry = Entry(name: string, realm: string, region: string)

  /** The number of entries the history is meant to hold. */
  const Capacity: nat := 10

  /** No entry occurs twice. */
  predicate Distinct(es: seq<Entry>) {
    forall i, j :: 0 <= i < j < |es| ==> es[i] != es[j]
  }

  /** The shape the history is meant to keep: distinct and at most ten long. */
  predicate WellFormed(es: seq<Entry>) {
    |es| <= Capacity && Distinct(es)
  }

  /** `addToStorageHistory` on the stored list, as the source writes it: a
      full history of exactly ten keeps only its oldest entry
      (`existingEntries.slice(-1)`). */
  function NextEntriesAsWritten(stored: Option<seq<Entry>>, e: Entry): (r: seq<Entry>)
    ensures e in r
    ensures stored.Some? ==> |r| <= |stored.value| + 1
  {
    match stored
    case None => [e]
    case Some(es) =>
      if e in es then es
      else [e] + (if |es| == Capacity then es[|es| - 1..] else es)
  }

  /** `addToStorageHistory` on the stored list, with the full history losing
      its oldest entry only (`slice(0, -1)`). This is the behaviour the
      history's shape calls for; see Findings in the README. */
  function NextEntries(stored: Option<seq<Entry>>, e: Entry): (r: seq<Entry>)
    ensures e in r
    ensures stored.Some? ==> |r| <= |stored.value| + 1
    ensures stored.Some? && |stored.value| <= Capacity ==> |r| <= Capacity
  {
    match stored
    case None => [e]
    case Some(es) =>
      if e in es then es
      else [e] + (if |es| == Capacity then es[..Capacity - 1] else es)
  }

  /** `existingEntries.filter((_, index) => index !== indexToRemove)`. */
  function RemoveIndex(es: seq<Entry>, index: int): (r: seq<Entry>)
    ensures |r| == if 0 <= index < |es| then |es| - 1 else |es|
  {
    if 0 <= index < |es| then es[..index] + es[index + 1..] else es
  }

  /** The storage slot and whether storage can be used at all. */
  class SearchHistory {
    const available: bool
    var slot: Option<seq<Entry>>

    /** Without storage nothing is ever stored. */
    ghost predicate Valid()
      reads this
    {
      !available ==> slot.None?
    }

    /** The history as found when the page loads. */
    constructor (available: bool, stored: Option<seq<Entry>>)
      ensures Valid()
      ensures this.available == available
      ensures slot == if available then stored else None
    {
      this.available := available;
      slot := if available then stored else None;
    }

    /** `addToStorageHistory(newEntry)`: does nothing without storage;
        otherwise scans the stored list for an entry with the same name,
        realm and region and, when there is none, stores the new entry in
        front of the old ones. */
    method Add(e: Entry)
      requires Valid()
      modifies this
      ensures Valid()
      ensures slot == if available then Some(NextEntries(old(slot), e)) else old(slot)
    {
      if !available {
        return;
      }
      if slot.None? {
        slot := Some([e]);
        return;
      }
      var existing := slot.value;
      var i := 0;
      while i < |existing|
        invariant 0 <= i <= |existing|
        invariant forall k :: 0 <= k < i ==> existing[k] != e
      {
        var entry := existing[i];
        if entry.name == e.name && entry.realm == e.realm && entry.region == e.region {
          return;
        }
        i := i + 1;
      }
      var kept := if |existing| == Capacity then existing[..Capacity - 1] else existing;
      slot := Some([e] + kept);
    }

    /** `removeFromStorageHistory(indexToRemove)`: rewrites the stored list
        without the entry at that index; nothing stored, nothing changes. */
    method Remove(index: int)
      requires Valid()
      modifies this
      ensures Valid()
      ensures slot == if old(slot).Some? then Some(RemoveIndex(old(slot).value, index)) else old(slot)
    {
      if slot.None? {
        return;
      }
      var existing := slot.value;
      var next: seq<Entry> := [];
      var k := 0;
      while k < |existing|
        invariant 0 <= k <= |existing|
        invariant next == if 0 <= index < k then existing[..index] + existing[index + 1..k] else existing[..k]
      {
        if k != index {
          if 0 <= index < k {
            assert existing[index + 1..k + 1] == existing[index + 1..k] + [existing[k]];
          } else {
            assert existing[..k + 1] == existing[..k] + [existing[k]];
          }
          next := next + [existing[k]];
        }
        k := k + 1;
      }
      assert existing[..k] == existing;
      slot := Some(next);
    }

    /** `getHistory()`: the stored list, `[]` without storage or without a
        stored list. */
    method Get() returns (h: seq<Entry>)
      ensures h == if available && slot.Some? then slot.value else []
    {
      if !available || slot.None? {
        return [];
      }
      h := slot.value;
    }
  }

  /** A search already in the history leaves it as it is. */
  lemma AddDuplicate(es: seq<Entry>, e: Entry)
    requires e in es
    ensures NextEntries(Some(es), e) == es
    ensures NextEntriesAsWritten(Some(es), e) == es
  {
  }

  /** The first search ever stored makes a history of one. */
  lemma AddFirst(e: Entry)
    ensures NextEntries(None, e) == [e]
    ensures NextEntriesAsWritten(None, e) == [e]
  {
  }

  /** Below capacity a new search is put in front and nothing is lost. */
  lemma AddBelowCapacity(es: seq<Entry>, e: Entry)
    requires e !in es && |es| != Capacity
    ensures NextEntries(Some(es), e) == [e] + es
    ensures NextEntriesAsWritten(Some(es), e) == [e] + es
    ensures |NextEntries(Some(es), e)| == |es| + 1
  {
  }

  /** As written, a new search added to a full history leaves a history of
      two: the new search and the oldest old one. */
  lemma AsWrittenFull(es: seq<Entry>, e: Entry)
    requires e !in es && |es| == Capacity
    ensures NextEntriesAsWritten(Some(es), e) == [e, es[Capacity - 1]]
    ensures |NextEntriesAsWritten(Some(es), e)| == 2
    ensures forall k :: 0 <= k < Capacity - 1 && es[k] != es[Capacity - 1] ==>
              es[k] !in NextEntriesAsWritten(Some(es), e)
  {
  }

  /** A concrete full history: adding an eleventh search forgets the nine
      most recent ones, although the history could keep ten. */
  lemma AsWrittenForgetsRecent()
    ensures var es := seq(10, k requires 0 <= k < 10 => Entry([(k + 48) as char], "realm", "eu"));
            var e := Entry("new", "realm", "eu");
            && WellFormed(es) && e !in es
            && NextEntriesAsWritten(Some(es), e) == [e, es[9]]
            && es[0] !in NextEntriesAsWritten(Some(es), e)
            && |NextEntries(Some(es), e)| == Capacity
  {
    var es := seq(10, k requires 0 <= k < 10 => Entry([(k + 48) as char], "realm", "eu"));
    var e := Entry("new", "realm", "eu");
    forall i, j | 0 <= i < j < |es| ensures es[i] != es[j] {
      assert es[i].name[0] != es[j].name[0];
    }
    forall k | 0 <= k < |es| ensures es[k] != e {
      assert |es[k].name| != |e.name|;
    }
  }

  /** A new search added to a full history pushes out the oldest entry only. */
  lemma AddFull(es: seq<Entry>, e: Entry)
    requires e !in es && |es| == Capacity
    ensures NextEntries(Some(es), e) == [e] + es[..Capacity - 1]
    ensures |NextEntries(Some(es), e)| == Capacity
  {
  }

  /** Adding keeps the history's shape: distinct, at most ten entries, and
      the searched entry is present, in front when it is new. */
  lemma AddKeepsWellFormed(stored: Option<seq<Entry>>, e: Entry)
    requires stored.Some? ==> WellFormed(stored.value)
    ensures WellFormed(NextEntries(stored, e))
    ensures e in NextEntries(stored, e)
    ensures stored.None? || e !in stored.value ==> NextEntries(stored, e)[0] == e
  {
    if stored.Some? && e !in stored.value {
      var es := stored.value;
      var kept := if |es| == Capacity then es[..Capacity - 1] else es;
      var r := [e] + kept;
      forall i, j | 0 <= i < j < |r| ensures r[i] != r[j] {
        assert r[j] == es[j - 1];
        if i > 0 {
          assert r[i] == es[i - 1];
        }
      }
    }
  }

  /** Every old entry except the oldest of a full history survives an
      addition, in the same order behind the new one. */
  lemma AddKeepsRecent(es: seq<Entry>, e: Entry)
    requires e !in es
    ensures var r := NextEntries(Some(es), e);
            forall k :: 0 <= k < |es| && (|es| != Capacity || k < Capacity - 1) ==> r[k + 1] == es[k]
  {
  }

  /** Removing an index drops exactly that entry and shifts the later ones
      down; an index outside the list changes nothing. */
  lemma RemoveSpec(es: seq<Entry>, index: int)
    ensures var r := RemoveIndex(es, index);
            && (0 <= index < |es| ==> |r| == |es| - 1 && multiset(r) + multiset{es[index]} == multiset(es))
            && (!(0 <= index < |es|) ==> r == es)
            && forall k :: 0 <= k < |r| ==> r[k] == es[if 0 <= index <= k then k + 1 else k]
  {
    if 0 <= index < |es| {
      assert es == es[..index] + [es[index]] + es[index + 1..];
    }
  }

  /** Removing keeps the history's shape. */
  lemma RemoveKeepsWellFormed(es: seq<Entry>, index: int)
    requires WellFormed(es)
    ensures WellFormed(RemoveIndex(es, index))
  {
    var r := RemoveIndex(es, index);
    RemoveSpec(es, index);
    forall i, j | 0 <= i < j < |r| ensures r[i] != r[j] {
      var i' := if 0 <= index <= i then i + 1 else i;
      var j' := if 0 <= index <= j then j + 1 else j;
      assert r[i] == es[i'] && r[j] == es[j'];
    }
  }
}
