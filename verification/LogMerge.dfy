// mergeObservabilityLogs: fill a map by id, sort newest first, keep the first `limit` entries.
module LogMerge {
  import opened Domain

  // Timestamps are compared only; they are modelled by their rank.
  datatype Entry = Entry(id: string, timestamp: int, level: string, message: string)

  // ---- the insertion-ordered map ----

  predicate HasId(entries: seq<Entry>, id: string) {
    exists i :: 0 <= i < |entries| && entries[i].id == id
  }

  predicate UniqueIds(entries: seq<Entry>) {
    forall i, j :: 0 <= i < j < |entries| ==> entries[i].id != entries[j].id
  }

  // Overwrite the entry with the same id where it stands.
  function Overwrite(entries: seq<Entry>, e: Entry): (r: seq<Entry>)
    ensures |r| == |entries|
    ensures forall i :: 0 <= i < |entries| ==> r[i] == if entries[i].id == e.id then e else entries[i]
  {
    if entries == [] then [] else [if entries[0].id == e.id then e else entries[0]] + Overwrite(entries[1..], e)
  }

  // Map.set: an existing key keeps its place in the iteration order.
  function Set(entries: seq<Entry>, e: Entry): seq<Entry> {
    if HasId(entries, e.id) then Overwrite(entries, e) else entries + [e]
  }

  function SetAll(entries: seq<Entry>, incoming: seq<Entry>): seq<Entry>
    decreases |incoming|
  {
    if incoming == [] then entries
    else Set(SetAll(entries, incoming[..|incoming| - 1]), incoming[|incoming| - 1])
  }

  // ---- the stable sort, newest first ----

  predicate NewestFirst(entries: seq<Entry>) {
    forall i, j :: 0 <= i < j < |entries| ==> entries[i].timestamp >= entries[j].timestamp
  }

  // Insert behind everything that is not older.
  function Insert(sorted: seq<Entry>, e: Entry): (r: seq<Entry>)
    ensures |r| == |sorted| + 1
  {
    if sorted == [] || sorted[0].timestamp < e.timestamp then [e] + sorted
    else [sorted[0]] + Insert(sorted[1..], e)
  }

  function Sort(entries: seq<Entry>): (r: seq<Entry>)
    ensures |r| == |entries|
  {
    if entries == [] then [] else Insert(Sort(entries[..|entries| - 1]), entries[|entries| - 1])
  }

  lemma {:induction false} InsertKeepsEntries(sorted: seq<Entry>, e: Entry)
    ensures multiset(Insert(sorted, e)) == multiset(sorted) + multiset{e}
  {
    if sorted != [] && sorted[0].timestamp >= e.timestamp {
      InsertKeepsEntries(sorted[1..], e);
      assert sorted == [sorted[0]] + sorted[1..];
    }
  }

  lemma {:induction false} InsertSorted(sorted: seq<Entry>, e: Entry)
    requires NewestFirst(sorted)
    ensures NewestFirst(Insert(sorted, e))
  {
    if sorted != [] && sorted[0].timestamp >= e.timestamp {
      var tail := sorted[1..];
      InsertSorted(tail, e);
      InsertKeepsEntries(tail, e);
      var rest := Insert(tail, e);
      forall i | 0 <= i < |rest| ensures rest[i].timestamp <= sorted[0].timestamp {
        assert rest[i] in multiset(rest);
        if rest[i] != e {
          assert rest[i] in tail;
        }
      }
    }
  }

  lemma LastCounts(before: seq<Entry>, last: Entry)
    ensures multiset(before + [last]) == multiset(before) + multiset{last}
  {
  }

  lemma {:induction false} SortKeepsEntries(entries: seq<Entry>)
    ensures multiset(Sort(entries)) == multiset(entries)
  {
    if entries != [] {
      var before, last := entries[..|entries| - 1], entries[|entries| - 1];
      SortKeepsEntries(before);
      InsertKeepsEntries(Sort(before), last);
      LastCounts(before, last);
      assert before + [last] == entries;
      assert Sort(entries) == Insert(Sort(before), last);
      hide *;
    }
  }

  // The sort returns the same entries, newest first.
  lemma {:induction false} SortSorts(entries: seq<Entry>)
    ensures NewestFirst(Sort(entries))
    ensures multiset(Sort(entries)) == multiset(entries)
  {
    if entries != [] {
      var before, last := entries[..|entries| - 1], entries[|entries| - 1];
      SortSorts(before);
      InsertSorted(Sort(before), last);
      hide NewestFirst, Insert;
    }
    SortKeepsEntries(entries);
  }

  lemma SortedFrom(entries: seq<Entry>, i: nat)
    requires i < |entries|
    ensures Sort(entries)[i] in entries
  {
    SortKeepsEntries(entries);
    assert Sort(entries)[i] in multiset(Sort(entries));
  }

  // ---- slice and merge ----

  // Array.prototype.slice(0, limit): a negative limit counts from the end.
  function Slice(entries: seq<Entry>, limit: int): (r: seq<Entry>)
    ensures r <= entries
  {
    if limit >= 0 then (if limit < |entries| then entries[..limit] else entries)
    else if |entries| + limit > 0 then entries[..|entries| + limit] else []
  }

  function Merge(existing: seq<Entry>, incoming: seq<Entry>, limit: int): seq<Entry> {
    Slice(Sort(SetAll(SetAll([], existing), incoming)), limit)
  }

  // The loop as written: the map, then its values sorted and cut.
  method MergeObservabilityLogs(existing: seq<Entry>, incoming: seq<Entry>, limit: int) returns (merged: seq<Entry>)
    ensures merged == Merge(existing, incoming, limit)
    ensures NewestFirst(merged) && UniqueIds(merged)
    ensures limit >= 0 ==> |merged| <= limit
  {
    var byId: seq<Entry> := [];
    for i := 0 to |existing|
      invariant byId == SetAll([], existing[..i])
    {
      assert existing[..i + 1][..i] == existing[..i];
      byId := PutEntry(byId, existing[i]);
    }
    assert existing[..|existing|] == existing;
    ghost var base := byId;
    for i := 0 to |incoming|
      invariant byId == SetAll(base, incoming[..i])
    {
      assert incoming[..i + 1][..i] == incoming[..i];
      byId := PutEntry(byId, incoming[i]);
    }
    assert incoming[..|incoming|] == incoming;
    var sorted := SortNewestFirst(byId);
    merged := Slice(sorted, limit);
    SortedAndUnique(existing, incoming);
  }

  lemma SortedAndUnique(existing: seq<Entry>, incoming: seq<Entry>)
    ensures var sorted := Sort(SetAll(SetAll([], existing), incoming));
            NewestFirst(sorted) && UniqueIds(sorted)
  {
    SetAllUnique([], existing);
    SetAllUnique(SetAll([], existing), incoming);
    SortSorts(SetAll(SetAll([], existing), incoming));
    SortUnique(SetAll(SetAll([], existing), incoming));
  }

  method PutEntry(byId: seq<Entry>, e: Entry) returns (r: seq<Entry>)
    ensures r == Set(byId, e)
  {
    r := byId;
    var found := false;
    for i := 0 to |byId|
      invariant |r| == |byId|
      invariant forall k :: 0 <= k < |byId| ==> r[k] == if k < i && byId[k].id == e.id then e else byId[k]
      invariant found <==> exists k :: 0 <= k < i && byId[k].id == e.id
    {
      if byId[i].id == e.id {
        r := r[i := e];
        found := true;
      }
    }
    if !found {
      r := byId + [e];
    } else {
      assert r == Overwrite(byId, e);
    }
  }

  // Array.prototype.sort, which is stable.
  method SortNewestFirst(entries: seq<Entry>) returns (sorted: seq<Entry>)
    ensures sorted == Sort(entries)
  {
    sorted := [];
    for i := 0 to |entries|
      invariant sorted == Sort(entries[..i])
    {
      assert entries[..i + 1][..i] == entries[..i];
      sorted := Insert(sorted, entries[i]);
    }
    assert entries[..|entries|] == entries;
  }

  // ---- ids and timestamps ----

  lemma SetUnique(entries: seq<Entry>, e: Entry)
    requires UniqueIds(entries)
    ensures UniqueIds(Set(entries, e))
    ensures forall id :: HasId(Set(entries, e), id) <==> HasId(entries, id) || id == e.id
  {
    var r := Set(entries, e);
    forall id ensures HasId(r, id) <==> HasId(entries, id) || id == e.id {
      if HasId(entries, id) {
        var i :| 0 <= i < |entries| && entries[i].id == id;
        assert r[i].id == id;
      }
      if id == e.id && !HasId(entries, id) {
        assert r[|entries|].id == id;
      }
      if HasId(r, id) {
        var i :| 0 <= i < |r| && r[i].id == id;
        assert i < |entries| ==> entries[i].id == id || id == e.id;
      }
    }
  }

  lemma {:induction false} SetAllUnique(entries: seq<Entry>, incoming: seq<Entry>)
    requires UniqueIds(entries)
    ensures UniqueIds(SetAll(entries, incoming))
    decreases |incoming|
  {
    if incoming != [] {
      SetAllUnique(entries, incoming[..|incoming| - 1]);
      SetUnique(SetAll(entries, incoming[..|incoming| - 1]), incoming[|incoming| - 1]);
    }
  }

  lemma {:induction false} InsertUnique(sorted: seq<Entry>, e: Entry)
    requires UniqueIds(sorted) && !HasId(sorted, e.id)
    ensures UniqueIds(Insert(sorted, e))
    ensures forall i :: 0 <= i < |Insert(sorted, e)| ==> Insert(sorted, e)[i] == e || Insert(sorted, e)[i] in sorted
  {
    if sorted == [] || sorted[0].timestamp < e.timestamp {
    } else {
      assert forall i :: 0 <= i < |sorted| - 1 ==> sorted[1..][i] == sorted[i + 1];
      InsertUnique(sorted[1..], e);
      var rest := Insert(sorted[1..], e);
      forall i | 0 <= i < |rest| ensures rest[i].id != sorted[0].id {
        if rest[i] != e {
          var k :| 0 <= k < |sorted| - 1 && sorted[1..][k] == rest[i];
        }
      }
    }
  }

  lemma {:induction false} SortUnique(entries: seq<Entry>)
    requires UniqueIds(entries)
    ensures UniqueIds(Sort(entries))
  {
    if entries != [] {
      var before, last := entries[..|entries| - 1], entries[|entries| - 1];
      SortUnique(before);
      SortSorts(before);
      forall i | 0 <= i < |Sort(before)| ensures Sort(before)[i].id != last.id {
        assert Sort(before)[i] in multiset(Sort(before));
        assert Sort(before)[i] in before;
      }
      InsertUnique(Sort(before), last);
    }
  }

  lemma {:induction false} SetAllIds(entries: seq<Entry>, incoming: seq<Entry>, id: string)
    requires UniqueIds(entries)
    ensures HasId(SetAll(entries, incoming), id) <==> HasId(entries, id) || HasId(incoming, id)
    decreases |incoming|
  {
    if incoming != [] {
      var before, last := incoming[..|incoming| - 1], incoming[|incoming| - 1];
      SetAllIds(entries, before, id);
      SetAllUnique(entries, before);
      SetUnique(SetAll(entries, before), last);
      assert incoming == before + [last];
      HasIdLast(before, last, id);
      hide Set, HasId, UniqueIds;
    }
  }

  lemma HasIdLast(before: seq<Entry>, last: Entry, id: string)
    ensures HasId(before + [last], id) <==> HasId(before, id) || id == last.id
  {
    var entries := before + [last];
    if HasId(before, id) {
      var i :| 0 <= i < |before| && before[i].id == id;
      assert entries[i].id == id;
    }
    if id == last.id {
      assert entries[|before|].id == id;
    }
    if HasId(entries, id) {
      var i :| 0 <= i < |entries| && entries[i].id == id;
      assert i < |before| ==> before[i].id == id;
    }
  }

  lemma {:induction false} SetAllAppend(entries: seq<Entry>, a: seq<Entry>, b: seq<Entry>)
    ensures SetAll(entries, a + b) == SetAll(SetAll(entries, a), b)
    decreases |b|
  {
    if b == [] {
      assert a + b == a;
    } else {
      assert (a + b)[..|a + b| - 1] == a + b[..|b| - 1];
      SetAllAppend(entries, a, b[..|b| - 1]);
    }
  }

  // The last occurrence of an id.
  function LastWith(entries: seq<Entry>, id: string): Option<Entry>
    decreases |entries|
  {
    if entries == [] then None
    else if entries[|entries| - 1].id == id then Some(entries[|entries| - 1])
    else LastWith(entries[..|entries| - 1], id)
  }

  // Every entry shown is the last one given for its id.
  predicate ShowsLast(shown: seq<Entry>, entries: seq<Entry>) {
    forall i :: 0 <= i < |shown| ==> LastWith(entries, shown[i].id) == Some(shown[i])
  }

  lemma {:induction false} SetAllShowsLast(entries: seq<Entry>)
    ensures ShowsLast(SetAll([], entries), entries)
    decreases |entries|
  {
    if entries != [] {
      var before, last := entries[..|entries| - 1], entries[|entries| - 1];
      SetAllShowsLast(before);
      SetShowsLast(SetAll([], before), before, last);
      assert before + [last] == entries;
      hide HasId, Set, ShowsLast;
    }
  }

  lemma SetShowsLast(all: seq<Entry>, before: seq<Entry>, e: Entry)
    requires ShowsLast(all, before)
    ensures ShowsLast(Set(all, e), before + [e])
  {
    var r, entries := Set(all, e), before + [e];
    assert entries[..|entries| - 1] == before;
    forall i | 0 <= i < |r| ensures LastWith(entries, r[i].id) == Some(r[i]) {
      if r[i].id != e.id {
        assert r[i] == all[i];
      } else {
        assert !HasId(all, e.id) ==> forall j :: 0 <= j < |all| ==> all[j].id != e.id;
      }
    }
  }

  // A merge is the top of the union: it splits the entries of the map, one per id that occurs,
  // into the visible ones and a rest that is cut only when `limit` entries are visible, and
  // nothing cut is newer than anything visible. The entry of an id is the last one given for it.
  lemma MergeIsTopOfUnion(existing: seq<Entry>, incoming: seq<Entry>, limit: nat) returns (cut: seq<Entry>)
    ensures var all := SetAll(SetAll([], existing), incoming);
            var merged := Merge(existing, incoming, limit);
            && UniqueIds(all) && NewestFirst(merged)
            && multiset(merged) + multiset(cut) == multiset(all)
            && (cut != [] ==> |merged| == limit)
            && (forall i, j :: 0 <= i < |merged| && 0 <= j < |cut| ==> cut[j].timestamp <= merged[i].timestamp)
            && (forall id :: HasId(all, id) <==> HasId(existing, id) || HasId(incoming, id))
            && ShowsLast(all, existing + incoming)
  {
    SetAllAppend([], existing, incoming);
    SetAllShowsLast(existing + incoming);
    var all := SetAll(SetAll([], existing), incoming);
    SortedAndUnique(existing, incoming);
    SetAllUnique([], existing);
    SetAllUnique(SetAll([], existing), incoming);
    UnionIds(existing, incoming);
    SortKeepsEntries(all);
    hide HasId, UniqueIds, Sort, SetAll;
    cut := CutOff(Sort(all), limit);
  }

  lemma CutOff(sorted: seq<Entry>, limit: nat) returns (cut: seq<Entry>)
    requires NewestFirst(sorted)
    ensures var kept := Slice(sorted, limit);
            && NewestFirst(kept)
            && multiset(kept) + multiset(cut) == multiset(sorted)
            && (cut != [] ==> |kept| == limit)
            && (forall i, j :: 0 <= i < |kept| && 0 <= j < |cut| ==> cut[j].timestamp <= kept[i].timestamp)
  {
    var kept := Slice(sorted, limit);
    cut := sorted[|kept|..];
    assert sorted == kept + cut;
    forall i, j | 0 <= i < |kept| && 0 <= j < |cut| ensures cut[j].timestamp <= kept[i].timestamp {
      assert kept[i] == sorted[i] && cut[j] == sorted[|kept| + j];
    }
  }

  lemma UnionIds(existing: seq<Entry>, incoming: seq<Entry>)
    ensures forall id :: HasId(SetAll(SetAll([], existing), incoming), id) <==> HasId(existing, id) || HasId(incoming, id)
  {
    SetAllUnique([], existing);
    assert forall id :: !HasId([], id);
    hide HasId, UniqueIds;
    forall id ensures HasId(SetAll(SetAll([], existing), incoming), id) <==> HasId(existing, id) || HasId(incoming, id) {
      SetAllIds([], existing, id);
      SetAllIds(SetAll([], existing), incoming, id);
    }
  }
}
