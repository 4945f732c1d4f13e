// How a merge orders entries with the same timestamp.
module LogOrder {
  import opened Domain
  import opened LogMerge

  // Where an id is first mentioned, or the length when it is not.
  function FirstAt(entries: seq<Entry>, id: string): (k: nat)
    ensures k <= |entries|
    decreases |entries|
  {
    if entries == [] then 0
    else
      var n := |entries| - 1;
      var k := FirstAt(entries[..n], id);
      if k < n || entries[n].id == id then k else n + 1
  }

  lemma {:induction false} FirstAtMeans(entries: seq<Entry>, id: string)
    ensures var k := FirstAt(entries, id);
            && (k < |entries| ==> entries[k].id == id)
            && (forall i :: 0 <= i < k ==> entries[i].id != id)
    decreases |entries|
  {
    if entries != [] {
      FirstAtMeans(entries[..|entries| - 1], id);
    }
  }

  function Ranks(shown: seq<Entry>, entries: seq<Entry>): (r: seq<nat>)
    ensures |r| == |shown|
  {
    seq(|shown|, i requires 0 <= i < |shown| => FirstAt(entries, shown[i].id))
  }

  predicate Increasing(ranks: seq<nat>) {
    forall i, j :: 0 <= i < j < |ranks| ==> ranks[i] < ranks[j]
  }

  predicate Below(ranks: seq<nat>, n: nat) {
    forall i :: 0 <= i < |ranks| ==> ranks[i] < n
  }

  // The list is in order of first mention; or at least its entries with equal timestamps are.
  predicate InOrderOf(shown: seq<Entry>, entries: seq<Entry>) {
    Increasing(Ranks(shown, entries)) && Below(Ranks(shown, entries), |entries|)
  }

  predicate TiesInOrderOf(shown: seq<Entry>, entries: seq<Entry>) {
    forall i, j :: 0 <= i < j < |shown| && shown[i].timestamp == shown[j].timestamp ==>
      FirstAt(entries, shown[i].id) < FirstAt(entries, shown[j].id)
  }

  lemma FirstAtLonger(before: seq<Entry>, e: Entry, id: string)
    ensures FirstAt(before, id) < |before| ==> FirstAt(before + [e], id) == FirstAt(before, id)
    ensures FirstAt(before + [e], e.id) <= |before|
    ensures FirstAt(before, e.id) == |before| ==> FirstAt(before + [e], e.id) == |before|
  {
    assert (before + [e])[..|before|] == before;
  }

  // The map iterates in the order in which ids were first set.
  lemma {:induction false} MapKeepsOrder(entries: seq<Entry>)
    ensures InOrderOf(SetAll([], entries), entries)
    decreases |entries|
  {
    if entries != [] {
      var before, last := entries[..|entries| - 1], entries[|entries| - 1];
      MapKeepsOrder(before);
      NewIdIsNew(before, last);
      SetKeepsOrder(SetAll([], before), before, last);
      assert before + [last] == entries;
      hide InOrderOf, Set, HasId, FirstAt;
    }
  }

  // An id the map does not have has not been mentioned.
  lemma NewIdIsNew(before: seq<Entry>, e: Entry)
    ensures !HasId(SetAll([], before), e.id) ==> FirstAt(before, e.id) == |before|
  {
    UnionIds(before, []);
    var all := SetAll([], before);
    assert SetAll(all, []) == all;
    FirstAtMeans(before, e.id);
    if FirstAt(before, e.id) < |before| {
      assert before[FirstAt(before, e.id)].id == e.id;
      assert HasId(before, e.id);
    }
  }

  lemma SetKeepsOrder(shown: seq<Entry>, before: seq<Entry>, e: Entry)
    requires InOrderOf(shown, before)
    requires !HasId(shown, e.id) ==> FirstAt(before, e.id) == |before|
    ensures InOrderOf(Set(shown, e), before + [e])
  {
    MentionStays(shown, before, e);
    FirstAtLonger(before, e, e.id);
    RanksOfOverwrite(shown, e, before + [e]);
    RanksOfAppend(shown, e, before + [e]);
    OneMoreRank(Ranks(shown, before), |before|);
    hide FirstAt, HasId, Ranks, Overwrite, Increasing, Below;
  }

  lemma RanksOfOverwrite(shown: seq<Entry>, e: Entry, entries: seq<Entry>)
    ensures Ranks(Overwrite(shown, e), entries) == Ranks(shown, entries)
  {
    hide FirstAt;
  }

  lemma RanksOfAppend(shown: seq<Entry>, e: Entry, entries: seq<Entry>)
    ensures Ranks(shown + [e], entries) == Ranks(shown, entries) + [FirstAt(entries, e.id)]
  {
    hide FirstAt;
  }

  lemma OneMoreRank(ranks: seq<nat>, n: nat)
    requires Increasing(ranks) && Below(ranks, n)
    ensures Below(ranks, n + 1) && Increasing(ranks + [n]) && Below(ranks + [n], n + 1)
  {
  }

  lemma MentionStays(shown: seq<Entry>, before: seq<Entry>, e: Entry)
    requires InOrderOf(shown, before)
    ensures Ranks(shown, before + [e]) == Ranks(shown, before)
  {
    forall i | 0 <= i < |shown| ensures FirstAt(before + [e], shown[i].id) == FirstAt(before, shown[i].id) {
      assert Ranks(shown, before)[i] < |before|;
      FirstAtLonger(before, e, shown[i].id);
    }
    hide FirstAt;
  }

  lemma {:induction false} InsertMembers(sorted: seq<Entry>, e: Entry)
    ensures forall x <- Insert(sorted, e) :: x == e || x in sorted
  {
    if sorted != [] && sorted[0].timestamp >= e.timestamp {
      InsertMembers(sorted[1..], e);
      assert forall x <- sorted[1..] :: x in sorted;
    }
  }

  lemma {:induction false} InsertKeepsTies(sorted: seq<Entry>, e: Entry, entries: seq<Entry>)
    requires NewestFirst(sorted) && TiesInOrderOf(sorted, entries)
    requires forall x <- sorted :: FirstAt(entries, x.id) < FirstAt(entries, e.id)
    ensures TiesInOrderOf(Insert(sorted, e), entries)
  {
    hide FirstAt;
    if sorted != [] && sorted[0].timestamp >= e.timestamp {
      var tail := sorted[1..];
      assert forall i :: 0 <= i < |tail| ==> tail[i] == sorted[i + 1];
      InsertKeepsTies(tail, e, entries);
      InsertMembers(tail, e);
      var rest := Insert(tail, e);
      forall j | 0 <= j < |rest| && rest[j].timestamp == sorted[0].timestamp
        ensures FirstAt(entries, sorted[0].id) < FirstAt(entries, rest[j].id)
      {
        assert rest[j] in rest;
        if rest[j] != e {
          var i :| 0 <= i < |tail| && tail[i] == rest[j];
          assert sorted[i + 1] == rest[j];
        }
      }
    }
  }

  lemma SortedBefore(shown: seq<Entry>, n: nat, entries: seq<Entry>)
    requires n < |shown| && InOrderOf(shown, entries)
    ensures InOrderOf(shown[..n], entries)
    ensures forall x <- Sort(shown[..n]) :: FirstAt(entries, x.id) < FirstAt(entries, shown[n].id)
  {
    var before, ranks := shown[..n], Ranks(shown, entries);
    assert Ranks(before, entries) == ranks[..n];
    SortKeepsEntries(before);
    hide FirstAt;
    forall x | x in Sort(before) ensures FirstAt(entries, x.id) < FirstAt(entries, shown[n].id) {
      assert x in multiset(Sort(before));
      var i :| 0 <= i < n && before[i] == x;
      assert ranks[i] < ranks[n];
    }
  }

  lemma {:induction false} SortKeepsTies(shown: seq<Entry>, entries: seq<Entry>)
    requires InOrderOf(shown, entries)
    ensures TiesInOrderOf(Sort(shown), entries)
    decreases |shown|
  {
    if shown != [] {
      var n := |shown| - 1;
      SortedBefore(shown, n, entries);
      hide InOrderOf, TiesInOrderOf, NewestFirst, FirstAt, Insert;
      SortKeepsTies(shown[..n], entries);
      SortSorts(shown[..n]);
      InsertKeepsTies(Sort(shown[..n]), shown[n], entries);
    } else {
      hide InOrderOf, FirstAt;
    }
  }

  // Entries with the same timestamp are shown in the order in which their ids first arrived.
  lemma TiesByArrival(existing: seq<Entry>, incoming: seq<Entry>, limit: int)
    ensures TiesInOrderOf(Merge(existing, incoming, limit), existing + incoming)
  {
    var entries := existing + incoming;
    SetAllAppend([], existing, incoming);
    MapKeepsOrder(entries);
    SortKeepsTies(SetAll([], entries), entries);
    hide FirstAt, SetAll, Sort;
  }
}
