// Merging a stream batch by batch, truncating each time, gives what one big merge would, except
// for negative limits and for entries that come back with another timestamp.
module LogStreaming {
  import opened LogMerge

  // Equal ids carry equal timestamps: all that streaming needs of the entries.
  predicate Consistent(entries: seq<Entry>) {
    forall i, j :: 0 <= i < |entries| && 0 <= j < |entries| && entries[i].id == entries[j].id ==>
      entries[i].timestamp == entries[j].timestamp
  }

  // The same, against a fixed assignment of timestamps to ids.
  predicate Stamped(entries: seq<Entry>, stamps: map<string, int>) {
    forall i :: 0 <= i < |entries| ==> entries[i].id in stamps && entries[i].timestamp == stamps[entries[i].id]
  }

  // Map.set on the sorted values.
  function Put(sorted: seq<Entry>, e: Entry): seq<Entry> {
    if HasId(sorted, e.id) then Overwrite(sorted, e) else Insert(sorted, e)
  }

  function PutAll(sorted: seq<Entry>, incoming: seq<Entry>): seq<Entry>
    decreases |incoming|
  {
    if incoming == [] then sorted
    else Put(PutAll(sorted, incoming[..|incoming| - 1]), incoming[|incoming| - 1])
  }

  lemma {:induction false} InsertOverwrite(sorted: seq<Entry>, x: Entry, e: Entry)
    requires forall i :: 0 <= i < |sorted| && sorted[i].id == e.id ==> sorted[i].timestamp == e.timestamp
    requires x.id == e.id ==> x.timestamp == e.timestamp
    ensures Insert(Overwrite(sorted, e), if x.id == e.id then e else x) == Overwrite(Insert(sorted, x), e)
  {
    if sorted == [] || sorted[0].timestamp < x.timestamp {
      assert ([x] + sorted)[1..] == sorted;
    } else {
      var tail := sorted[1..];
      InsertOverwrite(tail, x, e);
      assert ([sorted[0]] + Insert(tail, x))[1..] == Insert(tail, x);
      var o := Overwrite(sorted, e);
      assert o[1..] == Overwrite(tail, e);
    }
  }

  lemma OverwriteLast(entries: seq<Entry>, e: Entry)
    requires entries != []
    ensures var n, o := |entries| - 1, Overwrite(entries, e);
            o != [] && o[..|o| - 1] == Overwrite(entries[..n], e) && o[|o| - 1] == if entries[n].id == e.id then e else entries[n]
  {
  }

  lemma {:induction false} SortOverwrite(entries: seq<Entry>, e: Entry)
    requires forall i :: 0 <= i < |entries| && entries[i].id == e.id ==> entries[i].timestamp == e.timestamp
    ensures Sort(Overwrite(entries, e)) == Overwrite(Sort(entries), e)
  {
    if entries != [] {
      var before, last := entries[..|entries| - 1], entries[|entries| - 1];
      SortOverwrite(before, e);
      var s := Sort(before);
      forall i | 0 <= i < |s| && s[i].id == e.id ensures s[i].timestamp == e.timestamp {
        SortedFrom(before, i);
      }
      InsertOverwrite(s, last, e);
      OverwriteLast(entries, e);
      hide Insert, Overwrite;
    }
  }

  lemma SortHasId(entries: seq<Entry>, id: string)
    ensures HasId(Sort(entries), id) <==> HasId(entries, id)
  {
    SortSorts(entries);
    var s := Sort(entries);
    if HasId(entries, id) {
      var i :| 0 <= i < |entries| && entries[i].id == id;
      assert entries[i] in multiset(s);
      assert entries[i] in s;
    }
    if HasId(s, id) {
      var i :| 0 <= i < |s| && s[i].id == id;
      assert s[i] in multiset(entries);
      assert s[i] in entries;
    }
  }

  lemma SortStamped(entries: seq<Entry>, stamps: map<string, int>)
    requires Stamped(entries, stamps)
    ensures Stamped(Sort(entries), stamps)
  {
    SortSorts(entries);
    var s := Sort(entries);
    forall i | 0 <= i < |s| ensures s[i].id in stamps && s[i].timestamp == stamps[s[i].id] {
      assert s[i] in multiset(s);
      assert s[i] in entries;
    }
  }

  lemma {:induction false} SetAllStamped(entries: seq<Entry>, incoming: seq<Entry>, stamps: map<string, int>)
    requires Stamped(entries, stamps) && Stamped(incoming, stamps)
    ensures Stamped(SetAll(entries, incoming), stamps)
    decreases |incoming|
  {
    if incoming != [] {
      SetAllStamped(entries, incoming[..|incoming| - 1], stamps);
    }
  }

  // Sorting commutes with setting.
  lemma SortSet(entries: seq<Entry>, e: Entry, stamps: map<string, int>)
    requires Stamped(entries, stamps) && Stamped([e], stamps)
    ensures Sort(Set(entries, e)) == Put(Sort(entries), e)
  {
    assert [e][0] == e;
    SortHasId(entries, e.id);
    if HasId(entries, e.id) {
      SortOverwrite(entries, e);
    } else {
      assert (entries + [e])[..|entries|] == entries;
    }
  }

  lemma {:induction false} SortSetAll(entries: seq<Entry>, incoming: seq<Entry>, stamps: map<string, int>)
    requires Stamped(entries, stamps) && Stamped(incoming, stamps)
    ensures Sort(SetAll(entries, incoming)) == PutAll(Sort(entries), incoming)
    decreases |incoming|
  {
    if incoming != [] {
      var before, last := incoming[..|incoming| - 1], incoming[|incoming| - 1];
      SortSetAll(entries, before, stamps);
      SetAllStamped(entries, before, stamps);
      assert Stamped([last], stamps);
      SortSet(SetAll(entries, before), last, stamps);
      hide Set, Put, Sort, Stamped;
    }
  }

  function Take(entries: seq<Entry>, limit: nat): seq<Entry> {
    if limit < |entries| then entries[..limit] else entries
  }

  lemma {:induction false} TakeInsert(sorted: seq<Entry>, e: Entry, limit: nat)
    ensures Take(Insert(sorted, e), limit) == Take(Insert(Take(sorted, limit), e), limit)
    decreases |sorted|
  {
    if sorted == [] || limit == 0 || sorted[0].timestamp < e.timestamp {
    } else {
      TakeInsert(sorted[1..], e, limit - 1);
      var cut := Take(sorted, limit);
      assert cut[1..] == Take(sorted[1..], limit - 1);
      assert Take([sorted[0]] + Insert(sorted[1..], e), limit) == [sorted[0]] + Take(Insert(sorted[1..], e), limit - 1);
      assert Take([sorted[0]] + Insert(cut[1..], e), limit) == [sorted[0]] + Take(Insert(cut[1..], e), limit - 1);
    }
  }

  // What is older than everything kept is not kept.
  lemma {:induction false} TakeInsertLate(sorted: seq<Entry>, e: Entry, limit: nat)
    requires limit <= |sorted| && forall i :: 0 <= i < limit ==> sorted[i].timestamp >= e.timestamp
    ensures Take(Insert(sorted, e), limit) == Take(sorted, limit)
    decreases limit
  {
    if limit > 0 {
      TakeInsertLate(sorted[1..], e, limit - 1);
      assert Take([sorted[0]] + Insert(sorted[1..], e), limit) == [sorted[0]] + Take(Insert(sorted[1..], e), limit - 1);
    }
  }

  lemma TakeOverwrite(sorted: seq<Entry>, e: Entry, limit: nat)
    ensures Take(Overwrite(sorted, e), limit) == Overwrite(Take(sorted, limit), e)
  {
  }

  // s is the untruncated list, t the streamed one: same visible part, and t knows no other ids.
  predicate Simulates(s: seq<Entry>, t: seq<Entry>, limit: nat) {
    Take(s, limit) == Take(t, limit) && forall i :: 0 <= i < |t| ==> HasId(s, t[i].id)
  }

  lemma OverwriteIds(s: seq<Entry>, e: Entry, id: string)
    requires HasId(s, e.id)
    ensures HasId(Overwrite(s, e), id) <==> HasId(s, id)
  {
    var r := Overwrite(s, e);
    if HasId(s, id) {
      var i :| 0 <= i < |s| && s[i].id == id;
      assert r[i].id == id;
    }
    if HasId(r, id) {
      var i :| 0 <= i < |r| && r[i].id == id;
      assert s[i].id == id;
    }
  }

  lemma InsertIds(s: seq<Entry>, e: Entry, id: string)
    ensures HasId(Insert(s, e), id) <==> HasId(s, id) || id == e.id
  {
    InsertKeepsEntries(s, e);
    var r := Insert(s, e);
    if HasId(s, id) {
      var i :| 0 <= i < |s| && s[i].id == id;
      assert s[i] in multiset(r);
      assert s[i] in r;
    }
    if id == e.id {
      assert e in multiset(r);
      assert e in r;
    }
    if HasId(r, id) {
      var i :| 0 <= i < |r| && r[i].id == id;
      assert r[i] in multiset(r);
      assert r[i] == e || r[i] in s;
    }
  }

  lemma PutIds(s: seq<Entry>, e: Entry, id: string)
    ensures HasId(Put(s, e), id) <==> HasId(s, id) || id == e.id
  {
    hide HasId, Insert, Overwrite;
    if HasId(s, e.id) {
      OverwriteIds(s, e, id);
    } else {
      InsertIds(s, e, id);
    }
  }

  lemma PutKeepsOrder(s: seq<Entry>, e: Entry, stamps: map<string, int>)
    requires NewestFirst(s) && Stamped(s, stamps) && Stamped([e], stamps)
    ensures NewestFirst(Put(s, e)) && Stamped(Put(s, e), stamps)
  {
    assert [e][0] == e;
    OverwriteKeepsOrder(s, e, stamps);
    InsertSorted(s, e);
    InsertStamped(s, e, stamps);
    hide HasId, Insert, Overwrite, NewestFirst, Stamped;
  }

  lemma OverwriteKeepsOrder(s: seq<Entry>, e: Entry, stamps: map<string, int>)
    requires NewestFirst(s) && Stamped(s, stamps) && Stamped([e], stamps)
    ensures NewestFirst(Overwrite(s, e)) && Stamped(Overwrite(s, e), stamps)
  {
    assert [e][0] == e;
    var r := Overwrite(s, e);
    assert forall i :: 0 <= i < |s| ==> r[i].timestamp == s[i].timestamp && r[i].id == s[i].id;
  }

  lemma InsertStamped(s: seq<Entry>, e: Entry, stamps: map<string, int>)
    requires Stamped(s, stamps) && Stamped([e], stamps)
    ensures Stamped(Insert(s, e), stamps)
  {
    assert [e][0] == e;
    InsertKeepsEntries(s, e);
    var r := Insert(s, e);
    forall i | 0 <= i < |r| ensures r[i].id in stamps && r[i].timestamp == stamps[r[i].id] {
      assert r[i] in multiset(r);
      assert r[i] == e || r[i] in s;
    }
  }

  lemma PutKnowsNoOthers(s: seq<Entry>, t: seq<Entry>, e: Entry, limit: nat)
    requires Simulates(s, t, limit)
    ensures forall i :: 0 <= i < |Put(t, e)| ==> HasId(Put(s, e), Put(t, e)[i].id)
  {
    var r := Put(t, e);
    forall i | 0 <= i < |r| ensures HasId(Put(s, e), r[i].id) {
      assert HasId(r, r[i].id);
      PutIds(t, e, r[i].id);
      PutIds(s, e, r[i].id);
      if r[i].id != e.id {
        var k :| 0 <= k < |t| && t[k].id == r[i].id;
        assert HasId(s, t[k].id);
      }
    }
  }

  lemma PutSimulates(s: seq<Entry>, t: seq<Entry>, e: Entry, limit: nat, stamps: map<string, int>)
    requires NewestFirst(s) && NewestFirst(t) && Stamped(s, stamps) && Stamped(t, stamps) && Stamped([e], stamps)
    requires Simulates(s, t, limit)
    ensures Simulates(Put(s, e), Put(t, e), limit)
  {
    assert [e][0] == e;
    PutKnowsNoOthers(s, t, e, limit);
    if HasId(t, e.id) {
      var k :| 0 <= k < |t| && t[k].id == e.id;
      assert HasId(s, t[k].id);
      TakeOverwrite(s, e, limit);
      TakeOverwrite(t, e, limit);
    } else if HasId(s, e.id) {
      var k :| 0 <= k < |s| && s[k].id == e.id;
      forall i | 0 <= i < |t| ensures t[i].id != e.id {
        NotHasId(t, e.id, i);
      }
      DroppedStaysDropped(s, t, e, limit, k);
    } else {
      TakeInsert(s, e, limit);
      TakeInsert(t, e, limit);
    }
  }

  // What the stream has dropped stands behind everything it still shows.
  lemma DroppedIsLate(s: seq<Entry>, t: seq<Entry>, k: nat, limit: nat)
    requires NewestFirst(s) && k < |s| && Take(s, limit) == Take(t, limit)
    requires forall i :: 0 <= i < |t| ==> t[i].id != s[k].id
    ensures limit <= k && limit <= |t|
    ensures forall i :: 0 <= i < limit ==> t[i] == s[i] && t[i].timestamp >= s[k].timestamp
  {
    var v, dropped := Take(t, limit), s[k];
    assert v == s[..|v|] && v == t[..|v|];
    forall i {:trigger s[i]} | 0 <= i < |v| ensures s[i] == t[i] {
      assert s[i] == v[i] && v[i] == t[i];
    }
    assert dropped == s[k] && |v| == limit;
    forall i | 0 <= i < limit ensures t[i] == s[i] {
      assert v[i] == Take(s, limit)[i];
    }
  }

  // An entry the stream has already dropped comes back: neither list shows it.
  lemma DroppedStaysDropped(s: seq<Entry>, t: seq<Entry>, e: Entry, limit: nat, k: nat)
    requires NewestFirst(s) && k < |s| && Take(s, limit) == Take(t, limit)
    requires s[k].id == e.id && s[k].timestamp == e.timestamp
    requires forall i :: 0 <= i < |t| ==> t[i].id != e.id
    ensures Take(Overwrite(s, e), limit) == Take(Insert(t, e), limit)
  {
    DroppedIsLate(s, t, k, limit);
    hide NewestFirst, Insert, Overwrite;
    TakeInsertLate(t, e, limit);
    TakeOverwrite(s, e, limit);
    assert Overwrite(Take(s, limit), e) == Take(s, limit);
  }

  lemma NotHasId(entries: seq<Entry>, id: string, i: nat)
    requires !HasId(entries, id) && i < |entries|
    ensures entries[i].id != id
  {
  }

  lemma {:induction false} PutAllSimulates(s: seq<Entry>, t: seq<Entry>, incoming: seq<Entry>, limit: nat, stamps: map<string, int>)
    requires NewestFirst(s) && NewestFirst(t) && Stamped(s, stamps) && Stamped(t, stamps) && Stamped(incoming, stamps)
    requires Simulates(s, t, limit)
    ensures var s', t' := PutAll(s, incoming), PutAll(t, incoming);
            NewestFirst(s') && NewestFirst(t') && Stamped(s', stamps) && Stamped(t', stamps) && Simulates(s', t', limit)
    decreases |incoming|
  {
    if incoming != [] {
      var before, e := incoming[..|incoming| - 1], incoming[|incoming| - 1];
      PutAllSimulates(s, t, before, limit, stamps);
      PutKeepsOrder(PutAll(s, before), e, stamps);
      PutKeepsOrder(PutAll(t, before), e, stamps);
      PutSimulates(PutAll(s, before), PutAll(t, before), e, limit, stamps);
    }
  }

  lemma {:induction false} InsertLast(sorted: seq<Entry>, e: Entry)
    requires forall i :: 0 <= i < |sorted| ==> sorted[i].timestamp >= e.timestamp
    ensures Insert(sorted, e) == sorted + [e]
  {
    if sorted != [] {
      InsertLast(sorted[1..], e);
    }
  }

  // A list that is sorted and has unique ids passes through the map and the sort unchanged.
  lemma {:induction false} SortOfSorted(sorted: seq<Entry>)
    requires NewestFirst(sorted)
    ensures Sort(sorted) == sorted
  {
    if sorted != [] {
      var before := sorted[..|sorted| - 1];
      SortOfSorted(before);
      InsertLast(before, sorted[|sorted| - 1]);
    }
  }

  lemma UniquePrefix(before: seq<Entry>, last: Entry)
    requires UniqueIds(before + [last])
    ensures UniqueIds(before) && !HasId(before, last.id)
  {
    var entries := before + [last];
    assert forall i :: 0 <= i < |before| ==> before[i] == entries[i];
    assert entries[|before|] == last;
  }

  lemma {:induction false} SetAllOfUnique(entries: seq<Entry>)
    requires UniqueIds(entries)
    ensures SetAll([], entries) == entries
  {
    if entries != [] {
      var before, last := entries[..|entries| - 1], entries[|entries| - 1];
      assert before + [last] == entries;
      UniquePrefix(before, last);
      hide HasId, UniqueIds, Overwrite;
      SetAllOfUnique(before);
    }
  }

  // Merging A and then B, truncating both times, shows exactly what one merge of A followed by
  // B shows. Entries with equal ids may differ in everything but their timestamp, and distinct
  // ids may share timestamps.
  lemma StreamingEqualsBatch(existing: seq<Entry>, a: seq<Entry>, b: seq<Entry>, limit: nat)
    requires Consistent(existing + a + b)
    ensures Merge(Merge(existing, a, limit), b, limit) == Merge(existing, a + b, limit)
  {
    var all := existing + a + b;
    assert forall x, y :: x in all && y in all && x.id == y.id ==> x.timestamp == y.timestamp;
    var stamps := map x | x in all :: x.id := x.timestamp;
    assert forall i :: 0 <= i < |all| ==> all[i] in all && all[i].id in stamps && stamps[all[i].id] == all[i].timestamp;
    assert Stamped(all, stamps);
    StampedPart(existing, a, b, stamps);
    StreamStamped(existing, a, b, limit, stamps);
  }

  lemma StampedPart(existing: seq<Entry>, a: seq<Entry>, b: seq<Entry>, stamps: map<string, int>)
    requires Stamped(existing + a + b, stamps)
    ensures Stamped(existing, stamps) && Stamped(a, stamps) && Stamped(b, stamps)
  {
    var all := existing + a + b;
    assert forall i :: 0 <= i < |existing| ==> all[i] == existing[i];
    assert forall i :: 0 <= i < |a| ==> all[|existing| + i] == a[i];
    assert forall i :: 0 <= i < |b| ==> all[|existing| + |a| + i] == b[i];
  }

  lemma StreamStamped(existing: seq<Entry>, a: seq<Entry>, b: seq<Entry>, limit: nat, stamps: map<string, int>)
    requires Stamped(existing, stamps) && Stamped(a, stamps) && Stamped(b, stamps)
    ensures Merge(Merge(existing, a, limit), b, limit) == Merge(existing, a + b, limit)
  {
    var base := SetAll([], existing);
    var full := SetAll(base, a);
    var s, t := Sort(full), Merge(existing, a, limit);
    SetAllStamped([], existing, stamps);
    SetAllStamped(base, a, stamps);
    SortSetAll(base, a, stamps);
    SortedAndUnique(existing, a);
    SortStamped(full, stamps);
    StreamedPart(s, t, limit, stamps);
    SortSetAll(t, b, stamps);
    SortSetAll(full, b, stamps);
    SetAllAppend(base, a, b);
    PutAllSimulates(s, t, b, limit, stamps);
    hide SetAll, Sort, PutAll, NewestFirst, UniqueIds, Stamped;
  }

  lemma StreamedPart(s: seq<Entry>, t: seq<Entry>, limit: nat, stamps: map<string, int>)
    requires NewestFirst(s) && UniqueIds(s) && Stamped(s, stamps) && t == Take(s, limit)
    ensures NewestFirst(t) && UniqueIds(t) && Stamped(t, stamps) && Simulates(s, t, limit)
    ensures SetAll([], t) == t && Sort(t) == t
  {
    assert t <= s;
    SetAllOfUnique(t);
    SortOfSorted(t);
    forall i | 0 <= i < |t| ensures HasId(s, t[i].id) {
      assert s[i] == t[i];
    }
  }

  // ---- where the stream and the batch part ----

  // n entries with distinct ids and timestamps.
  function Ladder(n: nat): (r: seq<Entry>)
    ensures |r| == n
  {
    seq(n, i requires 0 <= i < n => Entry(seq(i, _ => 'x'), i, "", ""))
  }

  // With a negative limit the law fails: each merge drops that many entries once more.
  lemma NegativeLimitBreaksStreaming(limit: int)
    requires limit < 0
    ensures var n := -limit;
            var all := Ladder(n + 1);
            && Consistent(all)
            && Merge(Merge([], all[..n], limit), all[n..], limit) != Merge([], all, limit)
  {
    hide *;
    var n := -limit;
    var all := Ladder(n + 1);
    LadderUnique(n + 1);
    PrefixUnique(all, n);
    NegativeLimitDrops(all[..n], limit);
    NegativeLimitDrops(all, limit);
    assert all[n..] == [all[n]];
    UniqueOne(all[n]);
    NegativeLimitDrops(all[n..], limit);
  }

  // A negative limit drops that many entries.
  lemma NegativeLimitDrops(entries: seq<Entry>, limit: int)
    requires UniqueIds(entries) && limit < 0
    ensures |Merge([], entries, limit)| == if |entries| + limit > 0 then |entries| + limit else 0
  {
    MergeUnique(entries, limit);
    hide Merge, Sort, UniqueIds;
  }

  lemma PrefixUnique(entries: seq<Entry>, n: nat)
    requires UniqueIds(entries) && n <= |entries|
    ensures UniqueIds(entries[..n])
  {
  }

  // Where ids keep their timestamps, the stream of a and b shows what the batch shows.
  predicate Streams(existing: seq<Entry>, a: seq<Entry>, b: seq<Entry>, limit: int) {
    Consistent(existing + a + b) ==> Merge(Merge(existing, a, limit), b, limit) == Merge(existing, a + b, limit)
  }

  // The limits for which that is so whatever the entries are the natural numbers.
  lemma LimitsThatStream(limit: int)
    ensures (forall existing, a, b :: Streams(existing, a, b, limit)) <==> limit >= 0
  {
    hide Streams;
    if limit >= 0 {
      forall existing, a, b ensures Streams(existing, a, b, limit) {
        NaturalLimitStreams(existing, a, b, limit);
      }
    } else {
      var a, b := NegativeLimitDoesNotStream(limit);
    }
  }

  lemma NaturalLimitStreams(existing: seq<Entry>, a: seq<Entry>, b: seq<Entry>, limit: nat)
    ensures Streams(existing, a, b, limit)
  {
    if Consistent(existing + a + b) {
      StreamingEqualsBatch(existing, a, b, limit);
    }
  }

  lemma NegativeLimitDoesNotStream(limit: int) returns (a: seq<Entry>, b: seq<Entry>)
    requires limit < 0
    ensures !Streams([], a, b, limit)
  {
    hide *;
    NegativeLimitBreaksStreaming(limit);
    var n := -limit;
    LadderUnique(n + 1);
    var all := Ladder(n + 1);
    a, b := all[..n], all[n..];
    SplitDoesNotStream(all, n, limit);
  }

  lemma SplitDoesNotStream(all: seq<Entry>, n: nat, limit: int)
    requires n <= |all| && Consistent(all)
    requires Merge(Merge([], all[..n], limit), all[n..], limit) != Merge([], all, limit)
    ensures !Streams([], all[..n], all[n..], limit)
  {
    hide Consistent, Merge;
    assert all[..n] + all[n..] == all;
    assert [] + all[..n] + all[n..] == all;
  }

  lemma UniqueOne(e: Entry)
    ensures UniqueIds([e])
  {
  }

  lemma LadderUnique(n: nat)
    ensures |Ladder(n)| == n && UniqueIds(Ladder(n)) && Consistent(Ladder(n))
  {
    var entries := Ladder(n);
    forall i, j | 0 <= i < j < n ensures entries[i].id != entries[j].id {
      assert |entries[i].id| == i && |entries[j].id| == j;
    }
  }

  lemma MergeUnique(entries: seq<Entry>, limit: int)
    requires UniqueIds(entries)
    ensures Merge([], entries, limit) == Slice(Sort(entries), limit)
  {
    SetAllOfUnique(entries);
    assert SetAll([], []) == [];
  }

  // These entries stand in front of those, under other ids.
  predicate InFront(front: seq<Entry>, entries: seq<Entry>) {
    forall i, j :: 0 <= i < |front| && 0 <= j < |entries| ==>
      front[i].id != entries[j].id && front[i].timestamp >= entries[j].timestamp
  }

  predicate Front(front: seq<Entry>) {
    NewestFirst(front) && UniqueIds(front)
  }

  lemma {:induction false} InsertBehind(front: seq<Entry>, s: seq<Entry>, e: Entry)
    requires InFront(front, [e])
    ensures Insert(front + s, e) == front + Insert(s, e)
  {
    if front == [] {
      assert front + s == s && front + Insert(s, e) == Insert(s, e);
    } else {
      assert [e][0] == e && front[0].timestamp >= e.timestamp;
      assert (front + s)[1..] == front[1..] + s;
      InsertBehind(front[1..], s, e);
    }
  }

  lemma {:induction false} SortBehind(front: seq<Entry>, s: seq<Entry>)
    requires NewestFirst(front) && InFront(front, s)
    ensures Sort(front + s) == front + Sort(s)
    decreases |s|
  {
    if s == [] {
      assert front + s == front;
      SortOfSorted(front);
    } else {
      var n := |s| - 1;
      assert (front + s)[..|front + s| - 1] == front + s[..n];
      SortBehind(front, s[..n]);
      InsertBehind(front, Sort(s[..n]), s[n]);
    }
  }

  lemma HasIdBehind(front: seq<Entry>, s: seq<Entry>, id: string)
    requires forall i :: 0 <= i < |front| ==> front[i].id != id
    ensures HasId(front + s, id) <==> HasId(s, id)
  {
    if HasId(s, id) {
      var i :| 0 <= i < |s| && s[i].id == id;
      assert (front + s)[|front| + i].id == id;
    }
    if HasId(front + s, id) {
      var i :| 0 <= i < |front + s| && (front + s)[i].id == id;
      assert i >= |front| && s[i - |front|].id == id;
    }
  }

  lemma SetBehind(front: seq<Entry>, s: seq<Entry>, e: Entry)
    requires InFront(front, [e])
    ensures Set(front + s, e) == front + Set(s, e)
  {
    assert [e][0] == e;
    assert forall i :: 0 <= i < |front| ==> front[i].id != e.id;
    HasIdBehind(front, s, e.id);
    hide HasId, InFront;
    if HasId(s, e.id) {
      assert Overwrite(front + s, e) == front + Overwrite(s, e);
    } else {
      assert front + s + [e] == front + (s + [e]);
    }
  }

  lemma {:induction false} SetAllBehind(front: seq<Entry>, s: seq<Entry>, incoming: seq<Entry>)
    requires InFront(front, incoming)
    ensures SetAll(front + s, incoming) == front + SetAll(s, incoming)
    decreases |incoming|
  {
    if incoming != [] {
      var n := |incoming| - 1;
      SetAllBehind(front, s, incoming[..n]);
      assert InFront(front, [incoming[n]]);
      SetBehind(front, SetAll(s, incoming[..n]), incoming[n]);
      hide Set, InFront;
    }
  }

  lemma SetInFront(front: seq<Entry>, s: seq<Entry>, e: Entry)
    requires InFront(front, s) && InFront(front, [e])
    ensures InFront(front, Set(s, e))
  {
    assert [e][0] == e;
    var r := Set(s, e);
    hide HasId;
    forall i, j | 0 <= i < |front| && 0 <= j < |r| ensures front[i].id != r[j].id && front[i].timestamp >= r[j].timestamp {
      assert r[j] == e || (j < |s| && r[j] == s[j]);
    }
  }

  lemma {:induction false} SetAllInFront(front: seq<Entry>, s: seq<Entry>, incoming: seq<Entry>)
    requires InFront(front, s) && InFront(front, incoming)
    ensures InFront(front, SetAll(s, incoming))
    decreases |incoming|
  {
    if incoming != [] {
      var n := |incoming| - 1;
      assert InFront(front, incoming[..n]) && InFront(front, [incoming[n]]);
      SetAllInFront(front, s, incoming[..n]);
      hide InFront, Set;
      SetInFront(front, SetAll(s, incoming[..n]), incoming[n]);
    }
  }

  // Newer entries in front take their places and leave the rest of the view to the others.
  lemma MergeBehind(front: seq<Entry>, s: seq<Entry>, incoming: seq<Entry>)
    requires Front(front) && InFront(front, s) && InFront(front, incoming)
    ensures Merge(front + s, incoming, |front| + 1) == front + Merge(s, incoming, 1)
  {
    var all := SetAll(SetAll([], s), incoming);
    SetAllAppend([], front, s);
    SetAllOfUnique(front);
    assert front + [] == front && InFront(front, []);
    SetAllBehind(front, [], s);
    SetAllBehind(front, SetAll([], s), incoming);
    SetAllInFront(front, [], s);
    SetAllInFront(front, SetAll([], s), incoming);
    SortBehind(front, all);
    hide SetAll, Sort, InFront;
  }

  // Behind enough newer entries to leave one place, x and y are shown, and then x comes back as
  // `later`: the stream and the batch agree.
  predicate StreamMatchesBatch(front: seq<Entry>, x: Entry, y: Entry, later: Entry) {
    var limit := |front| + 1;
    Merge(Merge(front, [x, y], limit), [later], limit) == Merge(front, [x, y] + [later], limit)
  }

  lemma {:induction false} FrontIsApart(front: seq<Entry>, x: Entry, y: Entry, later: Entry)
    requires x.id == later.id && x.id != y.id && Front(front) && InFront(front, [x, y, later])
    ensures StreamMatchesBatch(front, x, y, later) <==> StreamMatchesBatch([], x, y, later)
  {
    var limit := |front| + 1;
    var xy, xyl, top := [x, y], [x, y] + [later], Merge([], [x, y], 1);
    ShowsTop(x, y);
    assert InFront(front, []);
    assert xyl == [x, y, later];
    assert InFront(front, xy) && InFront(front, [later]) && InFront(front, top) by {
      assert [x, y, later][0] == x && [x, y, later][1] == y && [x, y, later][2] == later;
    }
    assert front + [] == front;
    MergeBehind(front, [], xy);
    MergeBehind(front, [], xyl);
    MergeBehind(front, top, [later]);
    hide Merge, InFront, Front;
    assert Merge(Merge(front, xy, limit), [later], limit) == front + Merge(top, [later], 1);
    assert Merge(front, xyl, limit) == front + Merge([], xyl, 1);
    AfterFront(front, Merge(top, [later], 1), Merge([], xyl, 1));
  }

  lemma AfterFront(front: seq<Entry>, a: seq<Entry>, b: seq<Entry>)
    ensures front + a == front + b <==> a == b
  {
    assert (front + a)[|front|..] == a && (front + b)[|front|..] == b;
  }

  // The law holds for this stream unless x comes back older than the y it had kept out, or
  // level with the y that had kept it out.
  lemma ReturningEntryIff(front: seq<Entry>, x: Entry, y: Entry, later: Entry)
    requires x.id == later.id && x.id != y.id && Front(front) && InFront(front, [x, y, later])
    ensures StreamMatchesBatch(front, x, y, later) <==>
            !(later.timestamp < y.timestamp <= x.timestamp) && !(x.timestamp < y.timestamp == later.timestamp)
  {
    FrontIsApart(front, x, y, later);
    ReturningAlone(x, y, later);
    hide StreamMatchesBatch;
  }

  lemma ReturningAlone(x: Entry, y: Entry, later: Entry)
    requires x.id == later.id && x.id != y.id
    ensures StreamMatchesBatch([], x, y, later) <==>
            !(later.timestamp < y.timestamp <= x.timestamp) && !(x.timestamp < y.timestamp == later.timestamp)
  {
    ShowsTop(x, y);
    BatchShows(x, y, later);
    ReturnReplaces(x, later);
    ReturnCompetes(y, later);
    hide Merge;
  }

  // The stream when x was shown, and when y was.
  lemma ReturnReplaces(x: Entry, later: Entry)
    requires x.id == later.id
    ensures Merge([x], [later], 1) == [later]
  {
    SetAllOfUnique([x]);
    SetOne([x], later);
    assert Overwrite([x], later) == [later];
    SortOfSorted([later]);
    hide SetAll, Sort;
  }

  lemma ReturnCompetes(y: Entry, later: Entry)
    requires y.id != later.id
    ensures Merge([y], [later], 1) == [if y.timestamp < later.timestamp then later else y]
  {
    SetAllOfUnique([y]);
    AppendOne(y, later);
    SortTwo(y, later);
    hide SetAll, Sort;
  }

  lemma BatchShows(x: Entry, y: Entry, later: Entry)
    requires x.id == later.id && x.id != y.id
    ensures Merge([], [x, y] + [later], 1) == [if later.timestamp < y.timestamp then y else later]
  {
    var xy := [x, y];
    SetAllOfUnique(xy);
    SetOne(xy, later);
    assert Overwrite(xy, later) == [later, y];
    SetAllAppend([], xy, [later]);
    NothingToSet(xy + [later]);
    SortTwo(later, y);
    hide SetAll, Sort, UniqueIds;
  }

  // The streams of limit n in which x comes back as `later`.
  predicate Returns(front: seq<Entry>, n: nat, x: Entry, y: Entry, later: Entry) {
    |front| + 1 == n && y.id != x.id && Front(front) && InFront(front, [x, y, later])
  }

  // An entry can come back with any text but only with its own timestamp: for every positive
  // limit, the law holds in all these streams exactly when the timestamp is the same.
  lemma ChangedTimestampBreaksStreaming(limit: nat, x: Entry, later: Entry)
    requires limit > 0 && x.id == later.id
    ensures (forall front, y :: Returns(front, limit, x, y, later) ==> StreamMatchesBatch(front, x, y, later)) <==>
            x.timestamp == later.timestamp
  {
    hide StreamMatchesBatch;
    var newest := if later.timestamp < x.timestamp then x.timestamp else later.timestamp;
    var front := Fillers(limit - 1, x.id, newest);
    var y := Entry(x.id + "'", newest, "", "");
    assert |y.id| == |x.id| + 1;
    FillersInFront(limit - 1, x.id, newest, [x, y, later]);
    assert Returns(front, limit, x, y, later);
    ReturningEntryIff(front, x, y, later);
    if x.timestamp == later.timestamp {
      forall g, z | Returns(g, limit, x, z, later) ensures StreamMatchesBatch(g, x, z, later) {
        ReturningEntryIff(g, x, z, later);
      }
    }
  }

  // n entries with one timestamp and ever longer ids.
  function Fillers(n: nat, id: string, timestamp: int): (r: seq<Entry>)
    ensures |r| == n
    ensures forall i :: 0 <= i < n ==> r[i].timestamp == timestamp && |r[i].id| == |id| + 2 + i
  {
    seq(n, i requires 0 <= i < n => Entry(id + seq(i + 2, _ => '\''), timestamp, "", ""))
  }

  lemma FillersInFront(n: nat, id: string, timestamp: int, entries: seq<Entry>)
    requires forall i :: 0 <= i < |entries| ==> |entries[i].id| <= |id| + 1 && entries[i].timestamp <= timestamp
    ensures Front(Fillers(n, id, timestamp)) && InFront(Fillers(n, id, timestamp), entries)
  {
    var front := Fillers(n, id, timestamp);
    forall i, j | 0 <= i < j < n ensures front[i].id != front[j].id {
      assert |front[i].id| != |front[j].id|;
    }
    forall i, j | 0 <= i < n && 0 <= j < |entries| ensures front[i].id != entries[j].id {
      assert |front[i].id| > |entries[j].id|;
    }
  }

  lemma ShowsTop(x: Entry, y: Entry)
    requires x.id != y.id
    ensures Merge([], [x, y], 1) == [if x.timestamp < y.timestamp then y else x]
  {
    MergeUnique([x, y], 1);
    SortTwo(x, y);
  }

  lemma SortTwo(x: Entry, y: Entry)
    ensures Sort([x, y]) == if x.timestamp < y.timestamp then [y, x] else [x, y]
  {
    SortOfSorted([x]);
    assert [x, y][..1] == [x];
    assert Sort([x, y]) == Insert(Sort([x]), y);
    assert Insert([], y) == [y];
    assert [x][1..] == [];
  }

  lemma NothingToSet(entries: seq<Entry>)
    ensures SetAll(SetAll([], []), entries) == SetAll([], entries)
  {
  }

  lemma AppendOne(y: Entry, later: Entry)
    requires y.id != later.id
    ensures SetAll([y], [later]) == [y, later]
  {
    assert [later][..0] == [];
    assert !HasId([y], later.id);
    assert SetAll([y], [later]) == Set(SetAll([y], [later][..0]), later);
  }

  lemma SetOne(entries: seq<Entry>, e: Entry)
    requires entries != [] && entries[0].id == e.id
    ensures SetAll(entries, [e]) == Overwrite(entries, e)
  {
    assert [e][..0] == [];
    assert HasId(entries, e.id);
    assert SetAll(entries, [e]) == Set(SetAll(entries, [e][..0]), e);
  }
}
