// Version numbers over every history of the secret table, and what resolution returns on it.
module SecretProofs {
  import opened Domain
  import opened SecretModel

  datatype Op =
    | CreateOp(environment: int, name: string, provider: string, kind: string, value: string, clock: int)
    | RotateOp(id: nat, value: string, clock: int, fails: bool)
    | RevokeOp(id: nat, clock: int)
    | LinkOp(link: Link)
    | ExpireOp(id: nat, validUntil: Option<int>)

  datatype Store = Store(rows: seq<Secret>, links: set<Link>)

  // A request that is refused, or names no row, leaves the store alone.
  function Step(s: Store, op: Op): Store {
    match op
    case CreateOp(environment, name, provider, kind, value, clock) =>
      (match Create(s.rows, FirstVersion(environment, name, provider, kind, value, clock))
       case Ok(rows) => s.(rows := rows)
       case Err(_) => s)
    case RotateOp(id, value, clock, fails) =>
      if id >= |s.rows| then s
      else
        (match Rotate(s.rows, s.links, id, value, clock, fails)
         case Ok(rows) => s.(rows := rows)
         case Err(_) => s)
    case RevokeOp(id, clock) => if id >= |s.rows| then s else s.(rows := Revoke(s.rows, id, clock))
    case LinkOp(link) => s.(links := s.links + {link})
    case ExpireOp(id, until) => if id >= |s.rows| then s else s.(rows := s.rows[id := s.rows[id].(validUntil := until)])
  }

  function Replay(s: Store, ops: seq<Op>): Store
    decreases |ops|
  {
    if ops == [] then s else Replay(Step(s, ops[0]), ops[1..])
  }

  // How many rows carry the name of `f`.
  function CountName(rows: seq<Secret>, f: Secret): nat {
    if rows == [] then 0
    else CountName(rows[..|rows| - 1], f) + (if SameName(rows[|rows| - 1], f) then 1 else 0)
  }

  predicate HasVersion(rows: seq<Secret>, f: Secret, v: int) {
    exists i :: 0 <= i < |rows| && SameName(rows[i], f) && rows[i].version == v
  }

  predicate HasActive(rows: seq<Secret>, f: Secret) {
    exists i :: 0 <= i < |rows| && SameName(rows[i], f) && rows[i].active
  }

  predicate OneFamilyPerName(rows: seq<Secret>) {
    forall i, j :: 0 <= i < |rows| && 0 <= j < |rows| && SameName(rows[i], rows[j]) ==>
      SameFamily(rows[i], rows[j]) && (rows[i].version == rows[j].version ==> i == j)
  }

  predicate ActiveIsTop(rows: seq<Secret>) {
    forall i, j :: 0 <= i < |rows| && 0 <= j < |rows| && SameName(rows[i], rows[j]) && rows[i].active ==>
      rows[j].version <= rows[i].version
  }

  predicate ActiveCounts(rows: seq<Secret>) {
    forall i :: 0 <= i < |rows| && rows[i].active ==> rows[i].version == CountName(rows, rows[i])
  }

  ghost predicate EveryNameActive(rows: seq<Secret>) {
    forall i {:trigger HasActive(rows, rows[i])} :: 0 <= i < |rows| ==> HasActive(rows, rows[i])
  }

  ghost predicate NoGaps(rows: seq<Secret>) {
    && (forall i :: 0 <= i < |rows| ==> rows[i].version >= 1)
    && (forall i, v {:trigger HasVersion(rows, rows[i], v)} :: 0 <= i < |rows| && 1 <= v <= rows[i].version ==> HasVersion(rows, rows[i], v))
  }

  ghost predicate Inv(rows: seq<Secret>) {
    OneFamilyPerName(rows) && ActiveIsTop(rows) && ActiveCounts(rows) && EveryNameActive(rows) && NoGaps(rows)
  }

  // Only what a version is called matters for counting.
  predicate SameNames(a: seq<Secret>, b: seq<Secret>) {
    |a| == |b| && forall i :: 0 <= i < |a| ==> SameName(a[i], b[i])
  }

  lemma {:induction false} CountDependsOnNames(a: seq<Secret>, b: seq<Secret>, f: Secret, g: Secret)
    requires SameNames(a, b) && SameName(f, g)
    ensures CountName(a, f) == CountName(b, g)
    decreases |a|
  {
    if a != [] {
      CountDependsOnNames(a[..|a| - 1], b[..|b| - 1], f, g);
    }
  }

  lemma CountAppend(rows: seq<Secret>, s: Secret, f: Secret)
    ensures CountName(rows + [s], f) == CountName(rows, f) + (if SameName(s, f) then 1 else 0)
  {
    assert (rows + [s])[..|rows|] == rows;
  }

  lemma {:induction false} CountNone(rows: seq<Secret>, f: Secret)
    requires forall i :: 0 <= i < |rows| ==> !SameName(rows[i], f)
    ensures CountName(rows, f) == 0
    decreases |rows|
  {
    if rows != [] {
      CountNone(rows[..|rows| - 1], f);
    }
  }

  // b extends a (or relabels it): every name still has its rows, in the same versions.
  predicate Keeps(a: seq<Secret>, b: seq<Secret>) {
    |a| <= |b| && forall i :: 0 <= i < |a| ==> SameFamily(b[i], a[i]) && b[i].version == a[i].version
  }

  lemma HasVersionKept(a: seq<Secret>, b: seq<Secret>, f: Secret, g: Secret, v: int)
    requires Keeps(a, b) && SameName(f, g) && HasVersion(a, f, v)
    ensures HasVersion(b, g, v)
  {
    var k :| 0 <= k < |a| && SameName(a[k], f) && a[k].version == v;
    assert SameName(b[k], g) && b[k].version == v;
  }

  // The version numbers of b have no gaps if those of a have none and the one new row,
  // if there is one, is the successor of an old version or the first.
  lemma NoGapsKept(a: seq<Secret>, b: seq<Secret>)
    requires NoGaps(a) && Keeps(a, b) && |b| <= |a| + 1
    requires |b| == |a| + 1 ==>
               var n := b[|a|];
               n.version == 1 || exists i :: 0 <= i < |a| && SameName(a[i], n) && n.version == a[i].version + 1
    ensures NoGaps(b)
  {
    forall i, v {:trigger HasVersion(b, b[i], v)} | 0 <= i < |b| && 1 <= v <= b[i].version ensures HasVersion(b, b[i], v) {
      if i < |a| {
        assert HasVersion(a, a[i], v);
        HasVersionKept(a, b, a[i], b[i], v);
      } else if v == b[i].version {
        assert SameName(b[i], b[i]);
      } else {
        var k :| 0 <= k < |a| && SameName(a[k], b[i]) && b[i].version == a[k].version + 1;
        assert HasVersion(a, a[k], v);
        HasVersionKept(a, b, a[k], b[i], v);
      }
    }
  }

  // Changing neither names, families, versions nor activity keeps the invariant.
  lemma RelabelKeepsInv(rows: seq<Secret>, id: nat, s: Secret)
    requires Inv(rows) && id < |rows|
    requires SameFamily(s, rows[id]) && s.version == rows[id].version && s.active == rows[id].active
    ensures Inv(rows[id := s])
  {
    var t := rows[id := s];
    assert ActiveCounts(t) by {
      forall i | 0 <= i < |t| && t[i].active ensures t[i].version == CountName(t, t[i]) {
        CountDependsOnNames(t, rows, t[i], rows[i]);
      }
    }
    forall i {:trigger HasActive(t, t[i])} | 0 <= i < |t| ensures HasActive(t, t[i]) {
      var k := ActiveOf(rows, i);
      assert SameName(t[k], t[i]) && t[k].active;
    }
    hide HasActive, HasVersion, CountName;
    NoGapsKept(rows, t);
  }

  lemma CreateIsFresh(rows: seq<Secret>, s: Secret)
    requires Inv(rows) && !Exists(rows, s.environment, s.name)
    ensures forall i :: 0 <= i < |rows| ==> !SameName(rows[i], s)
  {
    forall i | 0 <= i < |rows| ensures !SameName(rows[i], s) {
      var k := ActiveOf(rows, i);
      assert !SameName(rows[k], s);
    }
  }

  lemma CreateKeepsInv(rows: seq<Secret>, s: Secret)
    requires Inv(rows) && s.version == 1 && s.active && !Exists(rows, s.environment, s.name)
    ensures Inv(rows + [s])
  {
    var t := rows + [s];
    CreateIsFresh(rows, s);
    assert ActiveCounts(t) by {
      forall i | 0 <= i < |t| && t[i].active ensures t[i].version == CountName(t, t[i]) {
        CountAppend(rows, s, t[i]);
        if i == |rows| {
          CountNone(rows, s);
        }
      }
    }
    forall i {:trigger HasActive(t, t[i])} | 0 <= i < |t| ensures HasActive(t, t[i]) {
      var k := if i < |rows| then ActiveOf(rows, i) else i;
      assert SameName(t[k], t[i]) && t[k].active;
    }
    hide HasActive, HasVersion, CountName;
    NoGapsKept(rows, t);
  }

  // t is rows with every version of the name of `id` deactivated and one successor appended.
  predicate IsRotation(rows: seq<Secret>, id: nat, t: seq<Secret>, value: string)
    requires id < |rows|
  {
    && |t| == |rows| + 1 && Keeps(rows, t)
    && (forall i :: 0 <= i < |rows| ==> (t[i].active <==> rows[i].active && !SameName(rows[i], rows[id])))
    && SameFamily(t[|rows|], rows[id]) && t[|rows|].active
    && !t[|rows|].revoked && t[|rows|].validUntil.None? && t[|rows|].value == value
    && t[|rows|].version == CountName(rows, rows[id]) + 1
    && (forall i :: 0 <= i < |rows| && SameName(rows[i], rows[id]) ==> rows[i].version < t[|rows|].version)
  }

  // That is what a rotation of any version of a linked name does to a store with the invariant;
  // and of the rows that were there, only the named one and the active one of that name change,
  // and they only stop being active: what was valid stays valid, with its value.
  lemma RotateShape(rows: seq<Secret>, links: set<Link>, id: nat, value: string, clock: int)
    requires Inv(rows) && id < |rows| && FamilyLinked(rows, links, rows[id])
    ensures var r := Rotate(rows, links, id, value, clock, false);
            && r.Ok? && IsRotation(rows, id, r.value, value)
            && (forall i :: 0 <= i < |rows| ==>
                  r.value[i] ==
                  if i == id || (rows[i].environment == rows[id].environment && rows[i].name == rows[id].name && rows[i].active)
                  then rows[i].(active := false, updatedAt := clock)
                  else rows[i])
            && r.value[|rows|] == rows[id].(version := CountName(rows, rows[id]) + 1, active := true, revoked := false,
                                            validUntil := None, value := value, updatedAt := clock)
  {
    var k := ActiveOf(rows, id);
    assert SameFamily(rows[k], rows[id]);
    var c := CurrentActive(rows, rows[id], |rows|);
    assert c == Some(k);
    var t := Rotate(rows, links, id, value, clock, false).value;
    DeactivatedRows(rows, k, id, clock);
    assert RotatedExactly(rows, id, k, t, value, clock);
    ExactIsRotation(rows, id, k, t, value, clock);
    OnlyActive(rows, id, k);
    hide CountName, FamilyLinked, CurrentActive, Rotate, Inv, IsRotation;
  }

  predicate RotatedExactly(rows: seq<Secret>, id: nat, k: nat, t: seq<Secret>, value: string, clock: int)
    requires id < |rows| && k < |rows|
  {
    && |t| == |rows| + 1
    && (forall i :: 0 <= i < |rows| ==> t[i] == if i == id || i == k then rows[i].(active := false, updatedAt := clock) else rows[i])
    && t[|rows|] == rows[id].(version := rows[k].version + 1, active := true, revoked := false, validUntil := None,
                              value := value, updatedAt := clock)
  }

  lemma DeactivatedRows(rows: seq<Secret>, k: nat, id: nat, clock: int)
    requires k < |rows| && id < |rows|
    ensures var t := Deactivate(Deactivate(rows, k, clock), id, clock);
            && |t| == |rows|
            && forall i :: 0 <= i < |rows| ==> t[i] == if i == id || i == k then rows[i].(active := false, updatedAt := clock) else rows[i]
  {
  }

  lemma OnlyActive(rows: seq<Secret>, id: nat, k: nat)
    requires Inv(rows) && id < |rows| && k < |rows| && SameName(rows[k], rows[id]) && rows[k].active
    ensures forall i :: 0 <= i < |rows| && SameName(rows[i], rows[id]) && rows[i].active ==> i == k
  {
    hide CountName, HasActive, HasVersion;
    forall i | 0 <= i < |rows| && SameName(rows[i], rows[id]) && rows[i].active ensures i == k {
      assert SameName(rows[i], rows[k]) && SameName(rows[k], rows[i]);
    }
  }

  lemma ExactIsRotation(rows: seq<Secret>, id: nat, k: nat, t: seq<Secret>, value: string, clock: int)
    requires Inv(rows) && id < |rows| && k < |rows| && SameName(rows[k], rows[id]) && rows[k].active
    requires rows[k].version == CountName(rows, rows[id]) && RotatedExactly(rows, id, k, t, value, clock)
    ensures IsRotation(rows, id, t, value)
  {
    OnlyActive(rows, id, k);
    hide CountName, HasActive, HasVersion;
    forall i | 0 <= i < |rows| && SameName(rows[i], rows[id]) ensures rows[i].version < t[|rows|].version {
      assert SameName(rows[k], rows[i]);
    }
  }

  lemma RotationCounts(rows: seq<Secret>, id: nat, t: seq<Secret>, value: string)
    requires ActiveCounts(rows) && id < |rows| && IsRotation(rows, id, t, value)
    ensures ActiveCounts(t)
  {
    var last := t[|rows|];
    assert t == t[..|rows|] + [last];
    forall i | 0 <= i < |t| && t[i].active ensures t[i].version == CountName(t, t[i]) {
      CountAppend(t[..|rows|], last, t[i]);
      CountDependsOnNames(t[..|rows|], rows, t[i], if i < |rows| then rows[i] else rows[id]);
    }
  }

  lemma RotationActive(rows: seq<Secret>, id: nat, t: seq<Secret>, value: string)
    requires Inv(rows) && id < |rows| && IsRotation(rows, id, t, value)
    ensures EveryNameActive(t) && ActiveIsTop(t) && OneFamilyPerName(t)
  {
    forall i {:trigger HasActive(t, t[i])} | 0 <= i < |t| ensures HasActive(t, t[i]) {
      var k := if i < |rows| && !SameName(rows[i], rows[id]) then ActiveOf(rows, i) else |rows|;
      assert SameName(t[k], t[i]) && t[k].active;
    }
  }

  lemma RotationKeepsInv(rows: seq<Secret>, id: nat, t: seq<Secret>, value: string)
    requires Inv(rows) && id < |rows| && IsRotation(rows, id, t, value)
    ensures Inv(t)
  {
    RotationCounts(rows, id, t, value);
    RotationActive(rows, id, t, value);
    var k := ActiveOf(rows, id);
    hide HasActive, HasVersion, CountName;
    assert SameName(rows[k], t[|rows|]) && t[|rows|].version == rows[k].version + 1;
    NoGapsKept(rows, t);
  }

  ghost function ActiveOf(rows: seq<Secret>, id: nat): (k: nat)
    requires Inv(rows) && id < |rows|
    ensures k < |rows| && SameName(rows[k], rows[id]) && rows[k].active && rows[k].version == CountName(rows, rows[id])
  {
    assert HasActive(rows, rows[id]);
    var k :| 0 <= k < |rows| && SameName(rows[k], rows[id]) && rows[k].active;
    CountDependsOnNames(rows, rows, rows[k], rows[id]);
    k
  }

  lemma StepKeepsInv(s: Store, op: Op)
    requires Inv(s.rows)
    ensures Inv(Step(s, op).rows)
  {
    hide Inv, Rotate, IsRotation;
    match op
    case CreateOp(environment, name, provider, kind, value, clock) =>
      if !Exists(s.rows, environment, name) {
        CreateKeepsInv(s.rows, FirstVersion(environment, name, provider, kind, value, clock));
      }
    case RotateOp(id, value, clock, fails) =>
      if id < |s.rows| && Rotate(s.rows, s.links, id, value, clock, fails).Ok? {
        RotateSucceedsWhen(s.rows, s.links, id, value, clock, fails);
        RotateShape(s.rows, s.links, id, value, clock);
        RotationKeepsInv(s.rows, id, Rotate(s.rows, s.links, id, value, clock, false).value, value);
      }
    case RevokeOp(id, clock) =>
      if id < |s.rows| {
        RelabelKeepsInv(s.rows, id, s.rows[id].(revoked := true, updatedAt := clock));
      }
    case LinkOp(_) =>
    case ExpireOp(id, until) =>
      if id < |s.rows| {
        RelabelKeepsInv(s.rows, id, s.rows[id].(validUntil := until));
      }
  }

  lemma RotateSucceedsWhen(rows: seq<Secret>, links: set<Link>, id: nat, value: string, clock: int, fails: bool)
    requires id < |rows|
    ensures Rotate(rows, links, id, value, clock, fails).Ok? <==> FamilyLinked(rows, links, rows[id]) && !fails
    ensures !fails ==> Rotate(rows, links, id, value, clock, fails) == Rotate(rows, links, id, value, clock, false)
  {
  }

  lemma {:induction false} ReplayKeepsInv(s: Store, ops: seq<Op>)
    requires Inv(s.rows)
    ensures Inv(Replay(s, ops).rows)
    decreases |ops|
  {
    if ops != [] {
      hide Inv, Step;
      StepKeepsInv(s, ops[0]);
      ReplayKeepsInv(Step(s, ops[0]), ops[1..]);
    }
  }

  // ---- main results ----

  const Fresh: Store := Store([], {})

  // Over every history, the versions of a name are exactly 1..n for its n rows, no number is
  // used twice, all rows share provider and kind, and the one active row is version n.
  lemma VersionsExactly(ops: seq<Op>, i: nat) returns (current: nat)
    requires i < |Replay(Fresh, ops).rows|
    ensures var rows := Replay(Fresh, ops).rows;
            var n := CountName(rows, rows[i]);
            && current < |rows| && SameName(rows[current], rows[i]) && rows[current].active && rows[current].version == n
            && (forall v {:trigger HasVersion(rows, rows[i], v)} :: HasVersion(rows, rows[i], v) <==> 1 <= v <= n)
            && (forall j :: 0 <= j < |rows| && SameName(rows[j], rows[i]) ==>
                  && SameFamily(rows[j], rows[i])
                  && (rows[j].version == rows[i].version ==> j == i)
                  && (rows[j].active ==> j == current))
  {
    ReplayKeepsInv(Fresh, ops);
    var rows := Replay(Fresh, ops).rows;
    current := ActiveOf(rows, i);
    VersionsOf(rows, i, current);
  }

  lemma VersionsOf(rows: seq<Secret>, i: nat, k: nat)
    requires Inv(rows) && i < |rows| && k < |rows| && SameName(rows[k], rows[i]) && rows[k].active
    ensures forall v {:trigger HasVersion(rows, rows[i], v)} :: HasVersion(rows, rows[i], v) <==> 1 <= v <= rows[k].version
  {
    forall v {:trigger HasVersion(rows, rows[i], v)} ensures HasVersion(rows, rows[i], v) <==> 1 <= v <= rows[k].version {
      if 1 <= v <= rows[k].version {
        assert HasVersion(rows, rows[k], v);
        assert Keeps(rows, rows);
        HasVersionKept(rows, rows, rows[k], rows[i], v);
      }
    }
  }

  // k is the highest version of the anchor's name that is neither revoked nor expired.
  predicate HighestValid(rows: seq<Secret>, anchor: Secret, now: int, k: nat) {
    && k < |rows| && SameName(rows[k], anchor) && Valid(rows[k], now)
    && (forall j :: 0 <= j < |rows| && SameName(rows[j], anchor) && Valid(rows[j], now) ==> rows[j].version <= rows[k].version)
  }

  // On every reachable store, resolving any version of a name finds its highest valid version.
  lemma ResolveIsHighestValid(rows: seq<Secret>, a: nat, now: int)
    requires Inv(rows) && a < |rows|
    ensures var r := Resolve(rows, rows[a], now, |rows|);
            && (forall k: nat :: r == Some(k) <==> HighestValid(rows, rows[a], now, k))
            && (r.None? <==> forall j :: 0 <= j < |rows| && SameName(rows[j], rows[a]) ==> !Valid(rows[j], now))
  {
    var r := Resolve(rows, rows[a], now, |rows|);
    hide HasActive, HasVersion, CountName, Resolve;
    if r.Some? {
      forall j | 0 <= j < |rows| && SameName(rows[j], rows[a]) && Valid(rows[j], now) ensures rows[j].version <= rows[r.value].version {
        assert Matches(rows[j], rows[a], now);
      }
      assert HighestValid(rows, rows[a], now, r.value);
    } else {
      forall j | 0 <= j < |rows| && SameName(rows[j], rows[a]) ensures !Valid(rows[j], now) {
        assert !Matches(rows[j], rows[a], now);
      }
    }
  }

  // Right after a rotation every version of the name resolves to the new one, at every instant.
  lemma RotationReachesEveryAnchor(rows: seq<Secret>, links: set<Link>, id: nat, value: string, clock: int, a: nat, now: int)
    requires Inv(rows) && id < |rows| && FamilyLinked(rows, links, rows[id])
    requires a <= |rows| && (a == |rows| || SameName(rows[a], rows[id]))
    ensures var t := Rotate(rows, links, id, value, clock, false).value;
            && Resolve(t, t[a], now, |t|) == Some(|rows|)
            && t[|rows|].value == value
  {
    RotateShape(rows, links, id, value, clock);
    var t := Rotate(rows, links, id, value, clock, false).value;
    hide Rotate, FamilyLinked;
    RotationKeepsInv(rows, id, t, value);
    ResolveIsHighestValid(t, a, now);
    hide CountName, HasActive, HasVersion;
    assert HighestValid(t, t[a], now, |rows|);
  }

  // Revoking a row takes exactly that row out of resolution; revoking the active one falls back
  // to the next lower valid version.
  lemma RevokeFallsBack(rows: seq<Secret>, id: nat, clock: int, a: nat, now: int, k: nat)
    requires Inv(rows) && id < |rows| && a < |rows|
    ensures var t := Revoke(rows, id, clock);
            Resolve(t, t[a], now, |t|) == Some(k) <==>
              && k < |rows| && k != id && SameName(rows[k], rows[a]) && Valid(rows[k], now)
              && forall j :: 0 <= j < |rows| && j != id && SameName(rows[j], rows[a]) && Valid(rows[j], now) ==> rows[j].version <= rows[k].version
  {
    var t := Revoke(rows, id, clock);
    RelabelKeepsInv(rows, id, t[id]);
    ResolveIsHighestValid(t, a, now);
    hide CountName, HasActive, HasVersion, Resolve, Inv;
    assert Resolve(t, t[a], now, |t|) == Some(k) <==> HighestValid(t, t[a], now, k);
    assert forall j :: 0 <= j < |rows| ==> SameName(t[j], rows[j]) && t[j].version == rows[j].version && (Valid(t[j], now) <==> j != id && Valid(rows[j], now));
  }

  // ---- the two resolution loops ----

  predicate AnchorsExist(rows: seq<Secret>, anchors: seq<nat>) {
    forall i :: 0 <= i < |anchors| ==> anchors[i] < |rows|
  }

  function ResolveAnchor(rows: seq<Secret>, anchor: nat, now: int): Option<nat>
    requires anchor < |rows|
  {
    Resolve(rows, rows[anchor], now, |rows|)
  }

  // The runtime loop: a later anchor of the same kind replaces an earlier one.
  function ResolveLastWins(rows: seq<Secret>, anchors: seq<nat>, now: int): map<string, nat>
    requires AnchorsExist(rows, anchors)
    decreases |anchors|
  {
    if anchors == [] then map[]
    else
      var rest := ResolveLastWins(rows, anchors[..|anchors| - 1], now);
      match ResolveAnchor(rows, anchors[|anchors| - 1], now)
      case None => rest
      case Some(k) => rest[rows[k].kind := k]
  }

  // The activation check: the first anchor of a kind stays.
  function ResolveFirstWins(rows: seq<Secret>, anchors: seq<nat>, now: int): map<string, nat>
    requires AnchorsExist(rows, anchors)
    decreases |anchors|
  {
    if anchors == [] then map[]
    else
      var rest := ResolveFirstWins(rows, anchors[..|anchors| - 1], now);
      match ResolveAnchor(rows, anchors[|anchors| - 1], now)
      case None => rest
      case Some(k) => if rows[k].kind in rest then rest else rest[rows[k].kind := k]
  }

  predicate Provides(rows: seq<Secret>, anchor: nat, now: int, kind: string, k: nat) {
    anchor < |rows| && ResolveAnchor(rows, anchor, now) == Some(k) && k < |rows| && rows[k].kind == kind
  }

  lemma {:induction false} LastWinsKeys(rows: seq<Secret>, anchors: seq<nat>, now: int, kind: string)
    requires AnchorsExist(rows, anchors)
    ensures var m := ResolveLastWins(rows, anchors, now);
            && (kind in m <==> exists i, k :: 0 <= i < |anchors| && Provides(rows, anchors[i], now, kind, k))
            && (kind in m ==> exists i :: 0 <= i < |anchors| && Provides(rows, anchors[i], now, kind, m[kind]))
    decreases |anchors|
  {
    if anchors != [] {
      var before := anchors[..|anchors| - 1];
      LastWinsKeys(rows, before, now, kind);
      var m := ResolveLastWins(rows, anchors, now);
      var r := ResolveAnchor(rows, anchors[|before|], now);
      hide Resolve, ResolveAnchor;
      if kind in m {
        if r.Some? && rows[r.value].kind == kind {
          assert Provides(rows, anchors[|before|], now, kind, m[kind]);
        } else {
          var i :| 0 <= i < |before| && Provides(rows, before[i], now, kind, m[kind]);
          assert Provides(rows, anchors[i], now, kind, m[kind]);
        }
      } else {
        assert forall i :: 0 <= i < |before| ==> before[i] == anchors[i];
      }
    }
  }

  lemma {:induction false} FirstWinsKeys(rows: seq<Secret>, anchors: seq<nat>, now: int, kind: string)
    requires AnchorsExist(rows, anchors)
    ensures var m := ResolveFirstWins(rows, anchors, now);
            && (kind in m <==> exists i, k :: 0 <= i < |anchors| && Provides(rows, anchors[i], now, kind, k))
            && (kind in m ==> exists i :: 0 <= i < |anchors| && Provides(rows, anchors[i], now, kind, m[kind]))
    decreases |anchors|
  {
    if anchors != [] {
      var before := anchors[..|anchors| - 1];
      FirstWinsKeys(rows, before, now, kind);
      var m := ResolveFirstWins(rows, anchors, now);
      var rest := ResolveFirstWins(rows, before, now);
      var r := ResolveAnchor(rows, anchors[|before|], now);
      hide Resolve, ResolveAnchor;
      if kind in rest {
        var i :| 0 <= i < |before| && Provides(rows, before[i], now, kind, rest[kind]);
        assert Provides(rows, anchors[i], now, kind, m[kind]);
      } else if kind in m {
        assert Provides(rows, anchors[|before|], now, kind, m[kind]);
      } else {
        assert forall i :: 0 <= i < |before| ==> before[i] == anchors[i];
      }
    }
  }

  predicate SameAnchors(a: seq<nat>, b: seq<nat>) {
    && (forall i :: 0 <= i < |a| ==> a[i] in b)
    && (forall i :: 0 <= i < |b| ==> b[i] in a)
  }

  // In whatever order the two queries list the linked secrets, the kinds the activation check
  // finds are exactly the kinds the runtime resolves at the same instant.
  lemma ActivationSeesRuntimeKinds(rows: seq<Secret>, checked: seq<nat>, used: seq<nat>, now: int)
    requires AnchorsExist(rows, checked) && AnchorsExist(rows, used) && SameAnchors(checked, used)
    ensures ResolveFirstWins(rows, checked, now).Keys == ResolveLastWins(rows, used, now).Keys
  {
    var f, l := ResolveFirstWins(rows, checked, now), ResolveLastWins(rows, used, now);
    hide ResolveAnchor, Resolve, ResolveFirstWins, ResolveLastWins;
    forall kind ensures kind in f <==> kind in l {
      FirstWinsKeys(rows, checked, now, kind);
      LastWinsKeys(rows, used, now, kind);
      if kind in f {
        var i, k :| 0 <= i < |checked| && Provides(rows, checked[i], now, kind, k);
        var j :| 0 <= j < |used| && used[j] == checked[i];
        assert Provides(rows, used[j], now, kind, k);
      }
      if kind in l {
        var i, k :| 0 <= i < |used| && Provides(rows, used[i], now, kind, k);
        var j :| 0 <= j < |checked| && checked[j] == used[i];
        assert Provides(rows, checked[j], now, kind, k);
      }
    }
  }

  predicate ProvidesKind(rows: seq<Secret>, anchor: nat, now: int, kind: string) {
    anchor < |rows| && ResolveAnchor(rows, anchor, now).Some? &&
    var k := ResolveAnchor(rows, anchor, now).value; k < |rows| && rows[k].kind == kind
  }

  // Position i holds the first, or the last, linked secret that resolves to the kind.
  predicate FirstProvider(rows: seq<Secret>, anchors: seq<nat>, now: int, kind: string, i: nat) {
    && i < |anchors| && ProvidesKind(rows, anchors[i], now, kind)
    && forall j :: 0 <= j < i ==> !ProvidesKind(rows, anchors[j], now, kind)
  }

  predicate LastProvider(rows: seq<Secret>, anchors: seq<nat>, now: int, kind: string, i: nat) {
    && i < |anchors| && ProvidesKind(rows, anchors[i], now, kind)
    && forall j :: i < j < |anchors| ==> !ProvidesKind(rows, anchors[j], now, kind)
  }

  lemma {:induction false} FirstProviderWins(rows: seq<Secret>, anchors: seq<nat>, now: int, kind: string, i: nat)
    requires AnchorsExist(rows, anchors) && FirstProvider(rows, anchors, now, kind, i)
    ensures var m := ResolveFirstWins(rows, anchors, now);
            kind in m && ResolveAnchor(rows, anchors[i], now) == Some(m[kind])
    decreases |anchors|
  {
    var n := |anchors| - 1;
    var before := anchors[..n];
    hide Resolve, ResolveAnchor;
    assert forall j :: 0 <= j < n ==> before[j] == anchors[j];
    if i < n {
      FirstProviderWins(rows, before, now, kind, i);
    } else {
      NoneProvides(rows, before, now, kind);
    }
  }

  lemma NoneProvides(rows: seq<Secret>, anchors: seq<nat>, now: int, kind: string)
    requires AnchorsExist(rows, anchors) && forall j :: 0 <= j < |anchors| ==> !ProvidesKind(rows, anchors[j], now, kind)
    ensures kind !in ResolveFirstWins(rows, anchors, now)
  {
    FirstWinsKeys(rows, anchors, now, kind);
    hide Resolve, ResolveAnchor, ResolveFirstWins;
    assert forall j, k :: 0 <= j < |anchors| && Provides(rows, anchors[j], now, kind, k) ==> ProvidesKind(rows, anchors[j], now, kind);
  }

  lemma {:induction false} LastProviderWins(rows: seq<Secret>, anchors: seq<nat>, now: int, kind: string, i: nat)
    requires AnchorsExist(rows, anchors) && LastProvider(rows, anchors, now, kind, i)
    ensures var m := ResolveLastWins(rows, anchors, now);
            kind in m && ResolveAnchor(rows, anchors[i], now) == Some(m[kind])
    decreases |anchors|
  {
    var n := |anchors| - 1;
    var before := anchors[..n];
    hide Resolve, ResolveAnchor;
    assert forall j :: 0 <= j < n ==> before[j] == anchors[j];
    if i < n {
      assert !ProvidesKind(rows, anchors[n], now, kind);
      LastProviderWins(rows, before, now, kind, i);
    }
  }

  lemma FindProviders(rows: seq<Secret>, anchors: seq<nat>, now: int, kind: string, i: nat) returns (first: nat, last: nat)
    requires i < |anchors| && ProvidesKind(rows, anchors[i], now, kind)
    ensures FirstProvider(rows, anchors, now, kind, first) && LastProvider(rows, anchors, now, kind, last)
  {
    hide ProvidesKind;
    first, last := 0, |anchors| - 1;
    while !ProvidesKind(rows, anchors[first], now, kind)
      invariant first <= i
      invariant forall j :: 0 <= j < first ==> !ProvidesKind(rows, anchors[j], now, kind)
      decreases i - first
    {
      first := first + 1;
    }
    while !ProvidesKind(rows, anchors[last], now, kind)
      invariant i <= last < |anchors|
      invariant forall j :: last < j < |anchors| ==> !ProvidesKind(rows, anchors[j], now, kind)
      decreases last
    {
      last := last - 1;
    }
  }

  // The check and the runtime choose the same secret of a kind exactly when the first linked
  // secret that resolves to it and the last one, each in the order of its own query, are
  // versions of one name.
  lemma ChoicesAgreeIff(rows: seq<Secret>, checked: seq<nat>, used: seq<nat>, now: int, kind: string, first: nat, last: nat)
    requires Inv(rows) && AnchorsExist(rows, checked) && AnchorsExist(rows, used)
    requires FirstProvider(rows, checked, now, kind, first) && LastProvider(rows, used, now, kind, last)
    ensures kind in ResolveFirstWins(rows, checked, now) && kind in ResolveLastWins(rows, used, now)
    ensures ResolveFirstWins(rows, checked, now)[kind] == ResolveLastWins(rows, used, now)[kind] <==>
            SameName(rows[checked[first]], rows[used[last]])
  {
    FirstProviderWins(rows, checked, now, kind, first);
    LastProviderWins(rows, used, now, kind, last);
    hide CountName, HasActive, HasVersion, ResolveFirstWins, ResolveLastWins;
    var k, l := ResolveFirstWins(rows, checked, now)[kind], ResolveLastWins(rows, used, now)[kind];
    assert SameName(rows[k], rows[checked[first]]) && SameName(rows[l], rows[used[last]]);
    if SameName(rows[checked[first]], rows[used[last]]) {
      SameNameSameChoice(rows, checked[first], used[last], now);
    }
  }

  // So they agree on every kind of which the binding links only one name.
  lemma OneNamePerKindAgrees(rows: seq<Secret>, checked: seq<nat>, used: seq<nat>, now: int, kind: string)
    requires Inv(rows) && AnchorsExist(rows, checked) && AnchorsExist(rows, used) && SameAnchors(checked, used)
    requires forall i, j :: 0 <= i < |used| && 0 <= j < |used| && rows[used[i]].kind == kind && rows[used[j]].kind == kind ==>
               SameName(rows[used[i]], rows[used[j]])
    requires kind in ResolveLastWins(rows, used, now)
    ensures kind in ResolveFirstWins(rows, checked, now)
    ensures ResolveFirstWins(rows, checked, now)[kind] == ResolveLastWins(rows, used, now)[kind]
  {
    LastWinsKeys(rows, used, now, kind);
    var j, p :| 0 <= j < |used| && Provides(rows, used[j], now, kind, p);
    var i :| 0 <= i < |checked| && checked[i] == used[j];
    var f, _ := FindProviders(rows, checked, now, kind, i);
    var _, l := FindProviders(rows, used, now, kind, j);
    ChoicesAgreeIff(rows, checked, used, now, kind, f, l);
    ProviderHasKind(rows, checked[f], now, kind);
    ProviderHasKind(rows, used[l], now, kind);
    assert checked[f] in used;
    var k :| 0 <= k < |used| && used[k] == checked[f];
    hide Inv, ResolveFirstWins, ResolveLastWins, ProvidesKind;
    assert rows[used[k]].kind == kind && rows[used[l]].kind == kind;
  }

  lemma ProviderHasKind(rows: seq<Secret>, anchor: nat, now: int, kind: string)
    requires ProvidesKind(rows, anchor, now, kind)
    ensures rows[anchor].kind == kind
  {
  }

  lemma SameNameSameChoice(rows: seq<Secret>, a: nat, b: nat, now: int)
    requires Inv(rows) && a < |rows| && b < |rows| && SameName(rows[a], rows[b])
    ensures Resolve(rows, rows[a], now, |rows|) == Resolve(rows, rows[b], now, |rows|)
  {
    ResolveIsHighestValid(rows, a, now);
    ResolveIsHighestValid(rows, b, now);
    hide Resolve, Inv;
    var r := Resolve(rows, rows[a], now, |rows|);
    if r.Some? {
      assert HighestValid(rows, rows[a], now, r.value);
      assert HighestValid(rows, rows[b], now, r.value);
    }
  }

  // With two names of one kind the check and the runtime may settle on different secrets.
  lemma TwoNamesCanDisagree(a: Secret, b: Secret, now: int)
    requires a.kind == b.kind && !SameName(a, b) && Valid(a, now) && Valid(b, now)
    ensures ResolveFirstWins([a, b], [0, 1], now) == map[a.kind := 0]
    ensures ResolveLastWins([a, b], [0, 1], now) == map[a.kind := 1]
  {
    var rows := [a, b];
    assert Resolve(rows, a, now, 1) == Some(0) && Resolve(rows, b, now, 1) == None;
    assert ResolveAnchor(rows, 0, now) == Some(0) && ResolveAnchor(rows, 1, now) == Some(1);
    assert [0, 1][..1] == [0] && [0][..0] == [];
    assert ResolveFirstWins(rows, [0], now) == map[a.kind := 0];
    assert ResolveLastWins(rows, [0], now) == map[a.kind := 0];
  }

  // A reachable store with such a pair: two names of one kind created, and linked to one binding.
  lemma TwoNamesHappen(environment: int, provider: string, kind: string, u: string, v: string, clock: int, now: int)
    ensures var ops := [CreateOp(environment, "a", provider, kind, u, clock), CreateOp(environment, "b", provider, kind, v, clock),
                        LinkOp(Link(0, 0)), LinkOp(Link(0, 1))];
            var s := Replay(Fresh, ops);
            && s.links == {Link(0, 0), Link(0, 1)} && |s.rows| == 2
            && ResolveFirstWins(s.rows, [0, 1], now) == map[kind := 0]
            && ResolveLastWins(s.rows, [0, 1], now) == map[kind := 1]
  {
    var one, two := CreateOp(environment, "a", provider, kind, u, clock), CreateOp(environment, "b", provider, kind, v, clock);
    var a, b := FirstVersion(environment, "a", provider, kind, u, clock), FirstVersion(environment, "b", provider, kind, v, clock);
    FourOps(Fresh, one, two, LinkOp(Link(0, 0)), LinkOp(Link(0, 1)));
    CreateTwo(a, b, one, two);
    assert Step(Step(Store([a, b], {}), LinkOp(Link(0, 0))), LinkOp(Link(0, 1))) == Store([a, b], {Link(0, 0), Link(0, 1)});
    assert !SameName(a, b);
    hide Step, Replay, ResolveFirstWins, ResolveLastWins;
    TwoNamesCanDisagree(a, b, now);
  }

  lemma CreateTwo(a: Secret, b: Secret, one: Op, two: Op)
    requires one.CreateOp? && a == FirstVersion(one.environment, one.name, one.provider, one.kind, one.value, one.clock)
    requires two.CreateOp? && b == FirstVersion(two.environment, two.name, two.provider, two.kind, two.value, two.clock)
    requires !SameName(a, b)
    ensures Step(Step(Fresh, one), two) == Store([a, b], {})
  {
    assert Step(Fresh, one) == Store([a], {});
    assert !Exists([a], two.environment, two.name);
  }

  lemma FourOps(s: Store, a: Op, b: Op, c: Op, d: Op)
    ensures Replay(s, [a, b, c, d]) == Step(Step(Step(Step(s, a), b), c), d)
  {
    hide Step;
    assert [a, b, c, d][1..] == [b, c, d];
    assert [b, c, d][1..] == [c, d];
    assert [c, d][1..] == [d];
    var s1 := Step(s, a);
    var s2 := Step(s1, b);
    var s3 := Step(s2, c);
    assert Replay(s3, [d]) == Replay(Step(s3, d), []);
    assert Replay(s2, [c, d]) == Replay(s3, [d]);
    assert Replay(s1, [b, c, d]) == Replay(s2, [c, d]);
  }

  // ---- what each operation does, in terms of the columns ----

  // A name can be created exactly when it has no active version, and starts as version 1.
  lemma CreateMeans(rows: seq<Secret>, links: set<Link>, environment: int, name: string, provider: string, kind: string, value: string, clock: int)
    ensures var taken := exists i :: 0 <= i < |rows| && rows[i].environment == environment && rows[i].name == name && rows[i].active;
            Step(Store(rows, links), CreateOp(environment, name, provider, kind, value, clock)) ==
            Store(if taken then rows else rows + [Secret(environment, name, provider, kind, 1, true, false, None, value, clock)], links)
  {
  }

  // A rotation is refused exactly when no version of the secret is linked to a binding.
  lemma RotateRefusedIff(rows: seq<Secret>, links: set<Link>, id: nat, value: string, clock: int, fails: bool)
    requires id < |rows|
    ensures var linked := exists l :: l in links && l.secret < |rows|
                            && rows[l.secret].environment == rows[id].environment && rows[l.secret].name == rows[id].name
                            && rows[l.secret].provider == rows[id].provider && rows[l.secret].kind == rows[id].kind;
            var r := Rotate(rows, links, id, value, clock, fails);
            && (r == Err(NotLinked) <==> !linked)
            && (r == Err(RotationFailed) <==> linked && fails)
            && (r.Ok? <==> linked && !fails)
            && (r.Err? ==> Step(Store(rows, links), RotateOp(id, value, clock, fails)) == Store(rows, links))
  {
    hide CurrentActive, Deactivate;
    if FamilyLinked(rows, links, rows[id]) {
      var l :| l in links && l.secret < |rows| && SameFamily(rows[l.secret], rows[id]);
      assert rows[l.secret].environment == rows[id].environment;
    }
    if l :| l in links && l.secret < |rows|
            && rows[l.secret].environment == rows[id].environment && rows[l.secret].name == rows[id].name
            && rows[l.secret].provider == rows[id].provider && rows[l.secret].kind == rows[id].kind {
      assert SameFamily(rows[l.secret], rows[id]);
    }
  }

  // A revocation marks its row and no other.
  lemma RevokeMeans(rows: seq<Secret>, links: set<Link>, id: nat, clock: int)
    requires id < |rows|
    ensures var t := Step(Store(rows, links), RevokeOp(id, clock));
            && t.links == links && |t.rows| == |rows|
            && forall i :: 0 <= i < |rows| ==> t.rows[i] == if i == id then rows[i].(revoked := true, updatedAt := clock) else rows[i]
  {
  }

  // On every reachable store, resolving version a finds k exactly when k is of the same
  // environment and name, not revoked, not expired, and no such row has a higher version.
  lemma ResolveMeans(ops: seq<Op>, a: nat, now: int, k: nat)
    requires a < |Replay(Fresh, ops).rows|
    ensures var rows := Replay(Fresh, ops).rows;
            Resolve(rows, rows[a], now, |rows|) == Some(k) <==>
              && k < |rows| && rows[k].environment == rows[a].environment && rows[k].name == rows[a].name
              && !rows[k].revoked && (rows[k].validUntil.None? || rows[k].validUntil.value > now)
              && forall j :: 0 <= j < |rows| && rows[j].environment == rows[a].environment && rows[j].name == rows[a].name
                   && !rows[j].revoked && (rows[j].validUntil.None? || rows[j].validUntil.value > now)
                   ==> rows[j].version <= rows[k].version
  {
    ReplayKeepsInv(Fresh, ops);
    var rows := Replay(Fresh, ops).rows;
    ResolveIsHighestValid(rows, a, now);
    hide Resolve, Inv, Replay;
    assert Resolve(rows, rows[a], now, |rows|) == Some(k) <==> HighestValid(rows, rows[a], now, k);
  }

  // Rotating and then revoking the new version resolves, from every version, to whatever
  // resolved before.
  lemma RotateThenRevoke(ops: seq<Op>, id: nat, value: string, clock: int, later: int, a: nat, now: int)
    requires var s := Replay(Fresh, ops); id < |s.rows| && a < |s.rows| && FamilyLinked(s.rows, s.links, s.rows[id])
    ensures var s := Replay(Fresh, ops);
            var t := Step(Step(s, RotateOp(id, value, clock, false)), RevokeOp(|s.rows|, later));
            a < |t.rows| && Resolve(t.rows, t.rows[a], now, |t.rows|) == Resolve(s.rows, s.rows[a], now, |s.rows|)
  {
    var s := Replay(Fresh, ops);
    ReplayKeepsInv(Fresh, ops);
    hide Inv, Replay;
    RevokedRotation(s, id, value, clock, later);
    StepKeepsInv(s, RotateOp(id, value, clock, false));
    var rotated := Step(s, RotateOp(id, value, clock, false));
    StepKeepsInv(rotated, RevokeOp(|s.rows|, later));
    hide Step;
    SameValidRows(s.rows, Step(rotated, RevokeOp(|s.rows|, later)).rows, a, now);
  }

  lemma RevokedRotation(s: Store, id: nat, value: string, clock: int, later: int)
    requires Inv(s.rows) && id < |s.rows| && FamilyLinked(s.rows, s.links, s.rows[id])
    ensures var t := Step(Step(s, RotateOp(id, value, clock, false)), RevokeOp(|s.rows|, later)).rows;
            && |t| == |s.rows| + 1 && t[|s.rows|].revoked
            && forall i :: 0 <= i < |s.rows| ==> t[i] == s.rows[i].(active := t[i].active, updatedAt := t[i].updatedAt)
  {
    RotateShape(s.rows, s.links, id, value, clock);
    var r := Rotate(s.rows, s.links, id, value, clock, false);
    assert Step(s, RotateOp(id, value, clock, false)) == Store(r.value, s.links);
    RevokeMeans(r.value, s.links, |s.rows|, later);
    hide Rotate, Step, IsRotation, Inv, CountName, FamilyLinked;
  }

  // One more row that is not valid, and changes to activity alone, do not change resolution.
  lemma SameValidRows(rows: seq<Secret>, t: seq<Secret>, a: nat, now: int)
    requires Inv(rows) && Inv(t) && a < |rows| && |t| == |rows| + 1 && t[|rows|].revoked
    requires forall i :: 0 <= i < |rows| ==> t[i] == rows[i].(active := t[i].active, updatedAt := t[i].updatedAt)
    ensures Resolve(t, t[a], now, |t|) == Resolve(rows, rows[a], now, |rows|)
  {
    ResolveIsHighestValid(rows, a, now);
    ResolveIsHighestValid(t, a, now);
    var before, after := Resolve(rows, rows[a], now, |rows|), Resolve(t, t[a], now, |t|);
    forall k: nat ensures HighestValid(rows, rows[a], now, k) <==> HighestValid(t, t[a], now, k) {
      SameHighest(rows, t, a, now, k);
    }
    hide Resolve, Inv, HighestValid;
    assert before.Some? ==> after == before;
    assert after.Some? ==> before == after;
  }

  lemma SameHighest(rows: seq<Secret>, t: seq<Secret>, a: nat, now: int, k: nat)
    requires a < |rows| && |t| == |rows| + 1 && t[|rows|].revoked
    requires forall i :: 0 <= i < |rows| ==> t[i] == rows[i].(active := t[i].active, updatedAt := t[i].updatedAt)
    ensures HighestValid(rows, rows[a], now, k) <==> HighestValid(t, t[a], now, k)
  {
    assert forall j :: 0 <= j < |rows| ==> (
              && SameName(t[j], t[a]) == SameName(rows[j], rows[a])
              && Valid(t[j], now) == Valid(rows[j], now)
              && t[j].version == rows[j].version);
    assert !Valid(t[|rows|], now);
    hide SameName, Valid;
  }
}
