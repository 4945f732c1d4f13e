// Secret references: versions of a named secret, their rotation and revocation, and the query
// that turns a linked version into the one to use now.
module SecretModel {
  import opened Domain

  // One row; the id of a row is its position in the table. `validUntil` is expires_at.
  datatype Secret = Secret(
    environment: int,
    name: string,
    provider: string,
    kind: string,
    version: int,
    active: bool,
    revoked: bool,
    validUntil: Option<int>,
    value: string,
    updatedAt: int)

  // One row per link between a binding and a secret version.
  datatype Link = Link(binding: int, secret: nat)

  datatype SecretError = AlreadyExists | NotLinked | RotationFailed

  // The unit of versioning: one name in one environment.
  predicate SameName(a: Secret, b: Secret) {
    a.environment == b.environment && a.name == b.name
  }

  // What the queries of rotation and resolution match on.
  predicate SameFamily(a: Secret, b: Secret) {
    SameName(a, b) && a.provider == b.provider && a.kind == b.kind
  }

  predicate Valid(s: Secret, now: int) {
    !s.revoked && (s.validUntil.None? || s.validUntil.value > now)
  }

  predicate Matches(s: Secret, anchor: Secret, now: int) {
    SameFamily(s, anchor) && Valid(s, now)
  }

  // ORDER BY is_active_version DESC, version DESC, updated_at DESC.
  predicate Before(a: Secret, b: Secret) {
    if a.active != b.active then a.active
    else if a.version != b.version then a.version > b.version
    else a.updatedAt > b.updatedAt
  }

  // The first row of the resolution query over the first n rows of the table.
  function Resolve(rows: seq<Secret>, anchor: Secret, now: int, n: nat): (r: Option<nat>)
    requires n <= |rows|
    ensures r.Some? ==> r.value < n && Matches(rows[r.value], anchor, now)
    ensures r.Some? ==> forall j :: 0 <= j < n && Matches(rows[j], anchor, now) ==> !Before(rows[j], rows[r.value])
    ensures r.None? ==> forall j :: 0 <= j < n ==> !Matches(rows[j], anchor, now)
  {
    if n == 0 then None
    else
      var rest := Resolve(rows, anchor, now, n - 1);
      if Matches(rows[n - 1], anchor, now) && (rest.None? || Before(rows[n - 1], rows[rest.value])) then Some(n - 1) else rest
  }

  // The active version with the highest number in the family of `anchor`.
  function CurrentActive(rows: seq<Secret>, anchor: Secret, n: nat): (r: Option<nat>)
    requires n <= |rows|
    ensures r.Some? ==> r.value < n && rows[r.value].active && SameFamily(rows[r.value], anchor)
    ensures r.Some? ==> forall j :: 0 <= j < n && rows[j].active && SameFamily(rows[j], anchor) ==> rows[j].version <= rows[r.value].version
    ensures r.None? ==> forall j :: 0 <= j < n ==> !(rows[j].active && SameFamily(rows[j], anchor))
  {
    if n == 0 then None
    else
      var rest := CurrentActive(rows, anchor, n - 1);
      if rows[n - 1].active && SameFamily(rows[n - 1], anchor) && (rest.None? || rows[n - 1].version > rows[rest.value].version)
      then Some(n - 1) else rest
  }

  predicate Exists(rows: seq<Secret>, environment: int, name: string) {
    exists i :: 0 <= i < |rows| && rows[i].environment == environment && rows[i].name == name && rows[i].active
  }

  predicate FamilyLinked(rows: seq<Secret>, links: set<Link>, anchor: Secret) {
    exists l :: l in links && l.secret < |rows| && SameFamily(rows[l.secret], anchor)
  }

  function FirstVersion(environment: int, name: string, provider: string, kind: string, value: string, clock: int): Secret {
    Secret(environment, name, provider, kind, 1, true, false, None, value, clock)
  }

  function Create(rows: seq<Secret>, s: Secret): Result<seq<Secret>, SecretError> {
    if Exists(rows, s.environment, s.name) then Err(AlreadyExists) else Ok(rows + [s])
  }

  function Deactivate(rows: seq<Secret>, i: nat, clock: int): seq<Secret>
    requires i < |rows|
  {
    rows[i := rows[i].(active := false, updatedAt := clock)]
  }

  // `fails`: the flush or the commit raised and the session was rolled back.
  function Rotate(rows: seq<Secret>, links: set<Link>, id: nat, value: string, clock: int, fails: bool): Result<seq<Secret>, SecretError>
    requires id < |rows|
  {
    if !FamilyLinked(rows, links, rows[id]) then Err(NotLinked)
    else if fails then Err(RotationFailed)
    else
      var current := CurrentActive(rows, rows[id], |rows|);
      var next := (if current.Some? then rows[current.value].version else rows[id].version) + 1;
      var a := if current.Some? then Deactivate(rows, current.value, clock) else rows;
      Ok(Deactivate(a, id, clock) + [rows[id].(version := next, active := true, revoked := false, validUntil := None, value := value, updatedAt := clock)])
  }

  function Revoke(rows: seq<Secret>, id: nat, clock: int): seq<Secret>
    requires id < |rows|
  {
    rows[id := rows[id].(revoked := true, updatedAt := clock)]
  }
}
