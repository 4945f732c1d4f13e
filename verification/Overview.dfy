// The project overview: how the numbers of the environments and of the project relate.
module Overview {
  import opened Domain
  import opened UsageModel

  type ProjectId = nat

  // Columns that are only copied into the overview.
  datatype Labels = Labels(stage: string, status: string, readinessState: string, readinessDetail: string)

  datatype Environment = Environment(id: EnvironmentId, project: ProjectId, isActive: bool, policy: Policy, labels: Labels)
  datatype Binding = Binding(id: nat, environment: EnvironmentId, status: BindingStatus)
  datatype Secret = Secret(environment: EnvironmentId, isActive: bool)
  datatype ApiKey = ApiKey(environment: EnvironmentId, isActive: bool)
  datatype Plan = Plan(binding: nat)
  datatype Migration = Migration(environment: EnvironmentId, status: MigrationStatus, drifted: bool)
  datatype Audit = Audit(project: Option<ProjectId>, environment: Option<EnvironmentId>, today: bool)

  datatype Database = Database(
    environments: seq<Environment>,
    bindings: seq<Binding>,
    secrets: seq<Secret>,
    keys: seq<ApiKey>,
    meters: seq<Meter>,
    plans: seq<Plan>,
    migrations: seq<Migration>,
    audits: seq<Audit>)

  datatype EnvironmentRow = EnvironmentRow(
    id: EnvironmentId,
    labels: Labels,
    activeBindings: nat,
    degradedBindings: nat,
    switchovers: nat,
    pendingMigrations: nat,
    driftedMigrations: nat,
    secrets: nat,
    keys: nat,
    usage: real,
    audits: nat,
    quota: Quota)

  datatype Summary = Summary(
    environmentCount: nat,
    activeEnvironments: nat,
    activeBindings: nat,
    degradedBindings: nat,
    secrets: nat,
    usage: real,
    audits: nat,
    rows: seq<EnvironmentRow>)

  // Primary keys.
  ghost predicate Keyed(db: Database) {
    && (forall i, j :: 0 <= i < j < |db.environments| ==> db.environments[i].id != db.environments[j].id)
    && (forall i, j :: 0 <= i < j < |db.bindings| ==> db.bindings[i].id != db.bindings[j].id)
  }

  // ---- where a row belongs and what it counts for ----

  const BindingHome: Binding -> Option<EnvironmentId> := (b: Binding) => Some(b.environment)
  const SecretHome: Secret -> Option<EnvironmentId> := (s: Secret) => Some(s.environment)
  const KeyHome: ApiKey -> Option<EnvironmentId> := (k: ApiKey) => Some(k.environment)
  const MeterHome: Meter -> Option<EnvironmentId> := (m: Meter) => Some(m.key.environment)
  const MigrationHome: Migration -> Option<EnvironmentId> := (m: Migration) => Some(m.environment)
  const AuditHome: Audit -> Option<EnvironmentId> := (a: Audit) => a.environment

  function HomeOfBinding(bindings: seq<Binding>, id: nat): Option<EnvironmentId> {
    if bindings == [] then None
    else if bindings[0].id == id then Some(bindings[0].environment)
    else HomeOfBinding(bindings[1..], id)
  }

  function PlanHome(bindings: seq<Binding>): Plan -> Option<EnvironmentId> {
    (p: Plan) => HomeOfBinding(bindings, p.binding)
  }

  const IsActive: Binding -> bool := (b: Binding) => b.status == BindingStatus.Active
  const IsDegraded: Binding -> bool := (b: Binding) => b.status != BindingStatus.Active
  const IsCurrent: Secret -> bool := (s: Secret) => s.isActive
  const IsUsable: ApiKey -> bool := (k: ApiKey) => k.isActive
  const IsWaiting: Migration -> bool := (m: Migration) => m.status.Queued? || m.status.Pending?
  const IsDrifted: Migration -> bool := (m: Migration) => m.drifted
  const IsOpen: Environment -> bool := (e: Environment) => e.isActive
  const AnyPlan: Plan -> bool := (p: Plan) => true
  const AnyAudit: Audit -> bool := (a: Audit) => true

  function CountAt<T>(rows: seq<T>, home: T -> Option<EnvironmentId>, q: T -> bool, id: EnvironmentId): nat
    decreases |rows|
  {
    if rows == [] then 0
    else
      var last := rows[|rows| - 1];
      CountAt(rows[..|rows| - 1], home, q, id) + (if home(last) == Some(id) && q(last) then 1 else 0)
  }

  function Count<T>(rows: seq<T>, q: T -> bool): nat
    decreases |rows|
  {
    if rows == [] then 0
    else Count(rows[..|rows| - 1], q) + (if q(rows[|rows| - 1]) then 1 else 0)
  }

  predicate Within<T(!new)>(x: T, home: T -> Option<EnvironmentId>, ids: seq<EnvironmentId>) {
    home(x).Some? && home(x).value in ids
  }

  function Select<T(!new)>(rows: seq<T>, home: T -> Option<EnvironmentId>, ids: seq<EnvironmentId>): (r: seq<T>)
    ensures forall x <- r :: Within(x, home, ids) && x in rows
    decreases |rows|
  {
    if rows == [] then []
    else
      var kept := Select(rows[..|rows| - 1], home, ids);
      if Within(rows[|rows| - 1], home, ids) then kept + [rows[|rows| - 1]] else kept
  }

  // ---- the queries ----

  function EnvironmentsOf(environments: seq<Environment>, project: ProjectId): (r: seq<Environment>)
    ensures forall e <- r :: e.project == project && e in environments
    decreases |environments|
  {
    if environments == [] then []
    else
      var kept := EnvironmentsOf(environments[..|environments| - 1], project);
      var last := environments[|environments| - 1];
      if last.project == project then kept + [last] else kept
  }

  function Ids(environments: seq<Environment>): (r: seq<EnvironmentId>)
    ensures |r| == |environments| && forall i :: 0 <= i < |r| ==> r[i] == environments[i].id
  {
    seq(|environments|, i requires 0 <= i < |environments| => environments[i].id)
  }

  // Today's audit entries of the project; none are read for a project without environments.
  function AuditsOf(audits: seq<Audit>, project: ProjectId, ids: seq<EnvironmentId>): (r: seq<Audit>)
    decreases |audits|
  {
    if audits == [] || ids == [] then []
    else
      var kept := AuditsOf(audits[..|audits| - 1], project, ids);
      var last := audits[|audits| - 1];
      if last.project == Some(project) && last.today then kept + [last] else kept
  }

  // ---- lemmas on counting ----

  function SumAt<T>(rows: seq<T>, home: T -> Option<EnvironmentId>, q: T -> bool, ids: seq<EnvironmentId>): nat
    decreases |ids|
  {
    if ids == [] then 0
    else SumAt(rows, home, q, ids[..|ids| - 1]) + CountAt(rows, home, q, ids[|ids| - 1])
  }

  function CountWithin<T(!new)>(rows: seq<T>, home: T -> Option<EnvironmentId>, q: T -> bool, ids: seq<EnvironmentId>): nat
    decreases |rows|
  {
    if rows == [] then 0
    else
      var last := rows[|rows| - 1];
      CountWithin(rows[..|rows| - 1], home, q, ids) + (if Within(last, home, ids) && q(last) then 1 else 0)
  }

  ghost predicate Distinct(ids: seq<EnvironmentId>) {
    forall i, j :: 0 <= i < j < |ids| ==> ids[i] != ids[j]
  }

  lemma {:induction false} OneMoreId<T(!new)>(rows: seq<T>, home: T -> Option<EnvironmentId>, q: T -> bool,
                                              ids: seq<EnvironmentId>, id: EnvironmentId)
    requires id !in ids
    ensures CountWithin(rows, home, q, ids + [id]) == CountWithin(rows, home, q, ids) + CountAt(rows, home, q, id)
    decreases |rows|
  {
    if rows != [] {
      OneMoreId(rows[..|rows| - 1], home, q, ids, id);
    }
  }

  lemma {:induction false} NoIds<T(!new)>(rows: seq<T>, home: T -> Option<EnvironmentId>, q: T -> bool)
    ensures CountWithin(rows, home, q, []) == 0
    decreases |rows|
  {
    if rows != [] {
      NoIds(rows[..|rows| - 1], home, q);
    }
  }

  // The environments share the rows out among themselves: none is counted twice, and those that
  // are not counted belong to no environment of the list.
  lemma {:induction false} Partition<T(!new)>(rows: seq<T>, home: T -> Option<EnvironmentId>, q: T -> bool, ids: seq<EnvironmentId>)
    requires Distinct(ids)
    ensures SumAt(rows, home, q, ids) == CountWithin(rows, home, q, ids)
    decreases |ids|
  {
    if ids == [] {
      NoIds(rows, home, q);
    } else {
      var n := |ids| - 1;
      Partition(rows, home, q, ids[..n]);
      OneMoreId(rows, home, q, ids[..n], ids[n]);
      assert ids[..n] + [ids[n]] == ids;
    }
  }

  lemma {:induction false} SelectedAt<T(!new)>(rows: seq<T>, home: T -> Option<EnvironmentId>, q: T -> bool,
                                               ids: seq<EnvironmentId>, id: EnvironmentId)
    requires id in ids
    ensures CountAt(Select(rows, home, ids), home, q, id) == CountAt(rows, home, q, id)
    decreases |rows|
  {
    if rows != [] {
      var n := |rows| - 1;
      SelectedAt(rows[..n], home, q, ids, id);
      var kept := Select(rows[..n], home, ids);
      if Within(rows[n], home, ids) {
        assert Select(rows, home, ids) == kept + [rows[n]];
        CountOneMore(kept, rows[n], home, q, id);
      } else {
        assert Select(rows, home, ids) == kept;
        assert home(rows[n]) != Some(id);
      }
    }
  }

  lemma CountOneMore<T>(rows: seq<T>, x: T, home: T -> Option<EnvironmentId>, q: T -> bool, id: EnvironmentId)
    ensures CountAt(rows + [x], home, q, id) ==
            CountAt(rows, home, q, id) + (if home(x) == Some(id) && q(x) then 1 else 0)
  {
    assert (rows + [x])[..|rows|] == rows;
  }

  lemma {:induction false} AllWithin<T(!new)>(rows: seq<T>, home: T -> Option<EnvironmentId>, q: T -> bool, ids: seq<EnvironmentId>)
    requires forall x <- rows :: Within(x, home, ids)
    ensures CountWithin(rows, home, q, ids) == Count(rows, q)
    decreases |rows|
  {
    if rows != [] {
      assert rows[|rows| - 1] in rows;
      AllWithin(rows[..|rows| - 1], home, q, ids);
    }
  }

  lemma {:induction false} WithinAtMost<T(!new)>(rows: seq<T>, home: T -> Option<EnvironmentId>, q: T -> bool, ids: seq<EnvironmentId>)
    ensures CountWithin(rows, home, q, ids) <= Count(rows, q) <= |rows|
    decreases |rows|
  {
    if rows != [] {
      WithinAtMost(rows[..|rows| - 1], home, q, ids);
    }
  }

  // Over selected rows the environment counts add up to the project count.
  lemma SelectedSum<T(!new)>(rows: seq<T>, home: T -> Option<EnvironmentId>, q: T -> bool, ids: seq<EnvironmentId>)
    requires Distinct(ids) && forall x <- rows :: Within(x, home, ids)
    ensures SumAt(rows, home, q, ids) == Count(rows, q)
  {
    Partition(rows, home, q, ids);
    AllWithin(rows, home, q, ids);
  }

  lemma {:induction false} ActiveOrDegraded(bindings: seq<Binding>)
    ensures Count(bindings, IsActive) + Count(bindings, IsDegraded) == |bindings|
    decreases |bindings|
  {
    if bindings != [] {
      ActiveOrDegraded(bindings[..|bindings| - 1]);
    }
  }

  lemma {:induction false} AnyCountsAll<T>(rows: seq<T>, q: T -> bool)
    requires forall x <- rows :: q(x)
    ensures Count(rows, q) == |rows|
    decreases |rows|
  {
    if rows != [] {
      AnyCountsAll(rows[..|rows| - 1], q);
    }
  }

  // ---- usage ----

  function SumTotals(rows: seq<Meter>, ids: seq<EnvironmentId>): real
    decreases |ids|
  {
    if ids == [] then 0.0 else SumTotals(rows, ids[..|ids| - 1]) + Total(rows, ids[|ids| - 1])
  }

  function Everything(rows: seq<Meter>): real
    decreases |rows|
  {
    if rows == [] then 0.0 else Everything(rows[..|rows| - 1]) + rows[|rows| - 1].value
  }

  lemma {:induction false} LastRowShare(rows: seq<Meter>, ids: seq<EnvironmentId>)
    requires Distinct(ids) && rows != []
    ensures SumTotals(rows, ids) == SumTotals(rows[..|rows| - 1], ids) +
            (if rows[|rows| - 1].key.environment in ids then rows[|rows| - 1].value else 0.0)
    decreases |ids|
  {
    if ids != [] {
      var n := |ids| - 1;
      LastRowShare(rows, ids[..n]);
      assert ids == ids[..n] + [ids[n]];
      assert ids[n] !in ids[..n];
    }
  }

  lemma {:induction false} NoRows(ids: seq<EnvironmentId>)
    ensures SumTotals([], ids) == 0.0
    decreases |ids|
  {
    if ids != [] {
      NoRows(ids[..|ids| - 1]);
    }
  }

  lemma {:induction false} UsagePartition(rows: seq<Meter>, ids: seq<EnvironmentId>)
    requires Distinct(ids) && forall m <- rows :: m.key.environment in ids
    ensures SumTotals(rows, ids) == Everything(rows)
    decreases |rows|
  {
    if rows == [] {
      NoRows(ids);
    } else {
      assert rows[|rows| - 1] in rows;
      LastRowShare(rows, ids);
      UsagePartition(rows[..|rows| - 1], ids);
    }
  }

  lemma {:induction false} SelectedUsage(rows: seq<Meter>, ids: seq<EnvironmentId>, id: EnvironmentId)
    requires id in ids
    ensures Total(Select(rows, MeterHome, ids), id) == Total(rows, id)
    decreases |rows|
  {
    if rows != [] {
      var n := |rows| - 1;
      SelectedUsage(rows[..n], ids, id);
      if Within(rows[n], MeterHome, ids) {
        var kept := Select(rows[..n], MeterHome, ids);
        assert (kept + [rows[n]])[..|kept|] == kept;
      }
    }
  }

  // ---- plans ----

  // Looking a binding up among the selected ones finds the same environment.
  lemma {:induction false} SelectedHome(bindings: seq<Binding>, ids: seq<EnvironmentId>, id: nat)
    requires forall i, j :: 0 <= i < j < |bindings| ==> bindings[i].id != bindings[j].id
    ensures HomeOfBinding(Select(bindings, BindingHome, ids), id) ==
            var home := HomeOfBinding(bindings, id); if home.Some? && home.value in ids then home else None
    decreases |bindings|
  {
    if bindings != [] {
      var n := |bindings| - 1;
      SelectedHome(bindings[..n], ids, id);
      HomeAppend(bindings[..n], bindings[n], id);
      assert bindings[..n] + [bindings[n]] == bindings;
      if bindings[n].id == id {
        HomeNone(bindings[..n], id);
      }
      HomeAppend(Select(bindings[..n], BindingHome, ids), bindings[n], id);
    }
  }

  lemma {:induction false} HomeAppend(bindings: seq<Binding>, b: Binding, id: nat)
    ensures HomeOfBinding(bindings + [b], id) ==
            if HomeOfBinding(bindings, id).Some? then HomeOfBinding(bindings, id)
            else if b.id == id then Some(b.environment) else None
    decreases |bindings|
  {
    if bindings != [] {
      HomeAppend(bindings[1..], b, id);
      assert (bindings + [b])[1..] == bindings[1..] + [b];
    }
  }

  lemma {:induction false} HomeNone(bindings: seq<Binding>, id: nat)
    requires forall b <- bindings :: b.id != id
    ensures HomeOfBinding(bindings, id).None?
    decreases |bindings|
  {
    if bindings != [] {
      HomeNone(bindings[1..], id);
    }
  }

  lemma {:induction false} SameHomes<T>(rows: seq<T>, one: T -> Option<EnvironmentId>, two: T -> Option<EnvironmentId>,
                                        q: T -> bool, id: EnvironmentId)
    requires forall x <- rows :: one(x) == two(x)
    ensures CountAt(rows, one, q, id) == CountAt(rows, two, q, id)
    decreases |rows|
  {
    if rows != [] {
      assert rows[|rows| - 1] in rows;
      SameHomes(rows[..|rows| - 1], one, two, q, id);
    }
  }

  // ---- the overview ----

  // One environment's row, read off the whole tables.
  function RowFor(db: Database, project: ProjectId, e: Environment, ids: seq<EnvironmentId>): EnvironmentRow {
    var usage := Total(db.meters, e.id);
    EnvironmentRow(
      e.id,
      e.labels,
      CountAt(db.bindings, BindingHome, IsActive, e.id),
      CountAt(db.bindings, BindingHome, IsDegraded, e.id),
      CountAt(db.plans, PlanHome(db.bindings), AnyPlan, e.id),
      CountAt(db.migrations, MigrationHome, IsWaiting, e.id),
      CountAt(db.migrations, MigrationHome, IsDrifted, e.id),
      CountAt(db.secrets, SecretHome, IsCurrent, e.id),
      CountAt(db.keys, KeyHome, IsUsable, e.id),
      usage,
      CountAt(AuditsOf(db.audits, project, ids), AuditHome, AnyAudit, e.id),
      Evaluate(usage, ThresholdsOf(e.policy)))
  }

  function Expected(db: Database, project: ProjectId): Summary {
    var environments := EnvironmentsOf(db.environments, project);
    var ids := Ids(environments);
    Summary(
      |environments|,
      Count(environments, IsOpen),
      Count(Select(db.bindings, BindingHome, ids), IsActive),
      Count(Select(db.bindings, BindingHome, ids), IsDegraded),
      Count(Select(db.secrets, SecretHome, ids), IsCurrent),
      Everything(Select(db.meters, MeterHome, ids)),
      |AuditsOf(db.audits, project, ids)|,
      RowsFor(db, project, environments, ids))
  }

  function RowsFor(db: Database, project: ProjectId, environments: seq<Environment>, ids: seq<EnvironmentId>): (rows: seq<EnvironmentRow>)
    ensures |rows| == |environments|
    ensures forall i :: 0 <= i < |rows| ==> rows[i] == RowFor(db, project, environments[i], ids)
  {
    seq(|environments|, i requires 0 <= i < |environments| => RowFor(db, project, environments[i], ids))
  }

  lemma {:induction false} DistinctIds(environments: seq<Environment>, project: ProjectId)
    requires forall i, j :: 0 <= i < j < |environments| ==> environments[i].id != environments[j].id
    ensures Distinct(Ids(EnvironmentsOf(environments, project)))
    decreases |environments|
  {
    if environments != [] {
      var n := |environments| - 1;
      DistinctIds(environments[..n], project);
      var kept := EnvironmentsOf(environments[..n], project);
      if environments[n].project == project {
        assert forall e <- kept :: e in environments[..n] && e.id != environments[n].id;
        assert Ids(kept + [environments[n]]) == Ids(kept) + [environments[n].id];
        assert forall i :: 0 <= i < |kept| ==> kept[i] in kept && Ids(kept)[i] != environments[n].id;
      }
    }
  }

  const ActiveColumn: EnvironmentRow -> nat := (r: EnvironmentRow) => r.activeBindings
  const DegradedColumn: EnvironmentRow -> nat := (r: EnvironmentRow) => r.degradedBindings
  const SecretsColumn: EnvironmentRow -> nat := (r: EnvironmentRow) => r.secrets
  const SwitchoversColumn: EnvironmentRow -> nat := (r: EnvironmentRow) => r.switchovers
  const AuditsColumn: EnvironmentRow -> nat := (r: EnvironmentRow) => r.audits

  function SumOf(rows: seq<EnvironmentRow>, f: EnvironmentRow -> nat): nat
    decreases |rows|
  {
    if rows == [] then 0 else SumOf(rows[..|rows| - 1], f) + f(rows[|rows| - 1])
  }

  function UsageOf(rows: seq<EnvironmentRow>): real
    decreases |rows|
  {
    if rows == [] then 0.0 else UsageOf(rows[..|rows| - 1]) + rows[|rows| - 1].usage
  }

  lemma {:induction false} SumOfCounts<T>(rows: seq<EnvironmentRow>, f: EnvironmentRow -> nat, table: seq<T>,
                                          home: T -> Option<EnvironmentId>, q: T -> bool, ids: seq<EnvironmentId>)
    requires |rows| == |ids|
    requires forall i :: 0 <= i < |rows| ==> f(rows[i]) == CountAt(table, home, q, ids[i])
    ensures SumOf(rows, f) == SumAt(table, home, q, ids)
    decreases |rows|
  {
    if rows != [] {
      SumOfCounts(rows[..|rows| - 1], f, table, home, q, ids[..|ids| - 1]);
    }
  }

  lemma {:induction false} SumOfUsage(rows: seq<EnvironmentRow>, meters: seq<Meter>, ids: seq<EnvironmentId>)
    requires |rows| == |ids|
    requires forall i :: 0 <= i < |rows| ==> rows[i].usage == Total(meters, ids[i])
    ensures UsageOf(rows) == SumTotals(meters, ids)
    decreases |rows|
  {
    if rows != [] {
      SumOfUsage(rows[..|rows| - 1], meters, ids[..|ids| - 1]);
    }
  }

  // A column of the environment rows adds up to the project's count of the selected table rows.
  lemma ColumnAddsUp<T(!new)>(rows: seq<EnvironmentRow>, f: EnvironmentRow -> nat, table: seq<T>,
                              home: T -> Option<EnvironmentId>, q: T -> bool, ids: seq<EnvironmentId>)
    requires Distinct(ids) && |rows| == |ids|
    requires forall i :: 0 <= i < |rows| ==> f(rows[i]) == CountAt(table, home, q, ids[i])
    ensures SumOf(rows, f) == Count(Select(table, home, ids), q)
  {
    forall i | 0 <= i < |rows| ensures f(rows[i]) == CountAt(Select(table, home, ids), home, q, ids[i]) {
      assert ids[i] in ids;
      SelectedAt(table, home, q, ids, ids[i]);
    }
    SumOfCounts(rows, f, Select(table, home, ids), home, q, ids);
    SelectedSum(Select(table, home, ids), home, q, ids);
  }

  // The project's bindings and secrets are those of its environments, taken together; every
  // binding is either active or degraded.
  lemma BindingsAndSecretsAddUp(db: Database, project: ProjectId)
    requires Keyed(db)
    ensures var s := Expected(db, project);
            && s.activeBindings == SumOf(s.rows, ActiveColumn)
            && s.degradedBindings == SumOf(s.rows, DegradedColumn)
            && s.activeBindings + s.degradedBindings ==
                 |Select(db.bindings, BindingHome, Ids(EnvironmentsOf(db.environments, project)))|
            && s.secrets == SumOf(s.rows, SecretsColumn)
  {
    var s := Expected(db, project);
    var ids := Ids(EnvironmentsOf(db.environments, project));
    DistinctIds(db.environments, project);
    ColumnAddsUp(s.rows, ActiveColumn, db.bindings, BindingHome, IsActive, ids);
    ColumnAddsUp(s.rows, DegradedColumn, db.bindings, BindingHome, IsDegraded, ids);
    ColumnAddsUp(s.rows, SecretsColumn, db.secrets, SecretHome, IsCurrent, ids);
    ActiveOrDegraded(Select(db.bindings, BindingHome, ids));
  }

  // Every switchover of the project's bindings is counted in exactly one environment.
  lemma SwitchoversCountedOnce(db: Database, project: ProjectId)
    requires Keyed(db)
    ensures var s := Expected(db, project);
            SumOf(s.rows, SwitchoversColumn) ==
            |Select(db.plans, PlanHome(db.bindings), Ids(EnvironmentsOf(db.environments, project)))|
  {
    var s := Expected(db, project);
    var ids := Ids(EnvironmentsOf(db.environments, project));
    DistinctIds(db.environments, project);
    ColumnAddsUp(s.rows, SwitchoversColumn, db.plans, PlanHome(db.bindings), AnyPlan, ids);
    AnyCountsAll(Select(db.plans, PlanHome(db.bindings), ids), AnyPlan);
  }

  lemma UsageAddsUp(db: Database, project: ProjectId)
    requires Keyed(db)
    ensures Expected(db, project).usage == UsageOf(Expected(db, project).rows)
  {
    var s := Expected(db, project);
    var ids := Ids(EnvironmentsOf(db.environments, project));
    var selected := Select(db.meters, MeterHome, ids);
    DistinctIds(db.environments, project);
    forall i | 0 <= i < |ids| ensures s.rows[i].usage == Total(selected, ids[i]) {
      assert ids[i] in ids;
      SelectedUsage(db.meters, ids, ids[i]);
    }
    SumOfUsage(s.rows, selected, ids);
    assert forall m <- selected :: Within(m, MeterHome, ids);
    UsagePartition(selected, ids);
  }

  // The environments' audit counts add up to the project's entries that name one of them; the
  // rest of the project's entries is in no row.
  lemma AuditsAddUp(db: Database, project: ProjectId)
    requires Keyed(db)
    ensures var s := Expected(db, project);
            var ids := Ids(EnvironmentsOf(db.environments, project));
            && SumOf(s.rows, AuditsColumn) == |Select(AuditsOf(db.audits, project, ids), AuditHome, ids)|
            && SumOf(s.rows, AuditsColumn) <= s.audits
            && (SumOf(s.rows, AuditsColumn) == s.audits <==>
                  forall a <- AuditsOf(db.audits, project, ids) :: Within(a, AuditHome, ids))
  {
    var s := Expected(db, project);
    var ids := Ids(EnvironmentsOf(db.environments, project));
    var audits := AuditsOf(db.audits, project, ids);
    DistinctIds(db.environments, project);
    ColumnAddsUp(s.rows, AuditsColumn, audits, AuditHome, AnyAudit, ids);
    AnyCountsAll(Select(audits, AuditHome, ids), AnyAudit);
    SelectLength(audits, AuditHome, ids);
  }

  lemma {:induction false} SelectLength<T(!new)>(rows: seq<T>, home: T -> Option<EnvironmentId>, ids: seq<EnvironmentId>)
    ensures |Select(rows, home, ids)| <= |rows|
    ensures |Select(rows, home, ids)| == |rows| <==> forall x <- rows :: Within(x, home, ids)
    decreases |rows|
  {
    if rows != [] {
      var n := |rows| - 1;
      SelectLength(rows[..n], home, ids);
      assert rows[n] in rows;
      assert forall x <- rows :: x in rows[..n] || x == rows[n];
    }
  }

  // The code's own way: a dictionary filled by one pass over the bindings, then one row for each
  // environment counted from the selected rows.
  method CountHealth(bindings: seq<Binding>, ids: seq<EnvironmentId>) returns (active: map<EnvironmentId, nat>, degraded: map<EnvironmentId, nat>)
    requires forall b <- bindings :: b.environment in ids
    ensures active.Keys == degraded.Keys && forall id <- ids :: id in active
    ensures forall id <- ids :: active[id] == CountAt(bindings, BindingHome, IsActive, id)
    ensures forall id <- ids :: degraded[id] == CountAt(bindings, BindingHome, IsDegraded, id)
  {
    active, degraded := map id | id in ids :: 0, map id | id in ids :: 0;
    for i := 0 to |bindings|
      invariant active.Keys == degraded.Keys && forall id :: id in ids <==> id in active
      invariant forall id <- ids :: active[id] == CountAt(bindings[..i], BindingHome, IsActive, id)
      invariant forall id <- ids :: degraded[id] == CountAt(bindings[..i], BindingHome, IsDegraded, id)
    {
      var b := bindings[i];
      assert b in bindings;
      assert bindings[..i + 1] == bindings[..i] + [b];
      forall id ensures CountAt(bindings[..i + 1], BindingHome, IsActive, id) ==
                        CountAt(bindings[..i], BindingHome, IsActive, id) + (if b.environment == id && IsActive(b) then 1 else 0) {
        CountOneMore(bindings[..i], b, BindingHome, IsActive, id);
      }
      forall id ensures CountAt(bindings[..i + 1], BindingHome, IsDegraded, id) ==
                        CountAt(bindings[..i], BindingHome, IsDegraded, id) + (if b.environment == id && IsDegraded(b) then 1 else 0) {
        CountOneMore(bindings[..i], b, BindingHome, IsDegraded, id);
      }
      hide CountAt;
      if b.status == BindingStatus.Active {
        active := active[b.environment := active[b.environment] + 1];
      } else {
        degraded := degraded[b.environment := degraded[b.environment] + 1];
      }
    }
    assert bindings[..|bindings|] == bindings;
  }

  // A plan joined to a binding of the environments counts the same among the selected rows.
  lemma SelectedPlans(db: Database, ids: seq<EnvironmentId>, id: EnvironmentId)
    requires Keyed(db) && id in ids
    ensures CountAt(Select(db.plans, PlanHome(db.bindings), ids), PlanHome(Select(db.bindings, BindingHome, ids)), AnyPlan, id) ==
            CountAt(db.plans, PlanHome(db.bindings), AnyPlan, id)
  {
    var plans := Select(db.plans, PlanHome(db.bindings), ids);
    var near, far := PlanHome(Select(db.bindings, BindingHome, ids)), PlanHome(db.bindings);
    forall p | p in plans ensures near(p) == far(p) {
      SelectedHome(db.bindings, ids, p.binding);
      assert Within(p, far, ids);
    }
    SameHomes(plans, near, far, AnyPlan, id);
    SelectedAt(db.plans, far, AnyPlan, ids, id);
  }

  method BuildRow(db: Database, project: ProjectId, e: Environment, ids: seq<EnvironmentId>,
                  active: nat, degraded: nat) returns (row: EnvironmentRow)
    requires Keyed(db) && e.id in ids
    requires active == CountAt(Select(db.bindings, BindingHome, ids), BindingHome, IsActive, e.id)
    requires degraded == CountAt(Select(db.bindings, BindingHome, ids), BindingHome, IsDegraded, e.id)
    ensures row == RowFor(db, project, e, ids)
  {
    var bindings := Select(db.bindings, BindingHome, ids);
    var secrets := CountAt(Select(db.secrets, SecretHome, ids), SecretHome, IsCurrent, e.id);
    var keys := CountAt(Select(db.keys, KeyHome, ids), KeyHome, IsUsable, e.id);
    var plans := CountAt(Select(db.plans, PlanHome(db.bindings), ids), PlanHome(bindings), AnyPlan, e.id);
    var waiting := CountAt(Select(db.migrations, MigrationHome, ids), MigrationHome, IsWaiting, e.id);
    var drifted := CountAt(Select(db.migrations, MigrationHome, ids), MigrationHome, IsDrifted, e.id);
    var usage := Total(Select(db.meters, MeterHome, ids), e.id);
    var audits := CountAt(AuditsOf(db.audits, project, ids), AuditHome, AnyAudit, e.id);
    SelectedAt(db.bindings, BindingHome, IsActive, ids, e.id);
    SelectedAt(db.bindings, BindingHome, IsDegraded, ids, e.id);
    SelectedAt(db.secrets, SecretHome, IsCurrent, ids, e.id);
    SelectedAt(db.keys, KeyHome, IsUsable, ids, e.id);
    SelectedAt(db.migrations, MigrationHome, IsWaiting, ids, e.id);
    SelectedAt(db.migrations, MigrationHome, IsDrifted, ids, e.id);
    SelectedPlans(db, ids, e.id);
    SelectedUsage(db.meters, ids, e.id);
    row := EnvironmentRow(e.id, e.labels, active, degraded, plans, waiting, drifted, secrets, keys, usage, audits,
                          Evaluate(usage, ThresholdsOf(e.policy)));
  }

  // The project totals are sums over the dictionary, whose keys are the environments.
  method SumValues(values: map<EnvironmentId, nat>, ids: seq<EnvironmentId>) returns (total: nat)
    requires forall id <- ids :: id in values
    ensures total == SumMap(values, ids)
  {
    total := 0;
    for i := 0 to |ids|
      invariant total == SumMap(values, ids[..i])
    {
      assert ids[..i + 1][..i] == ids[..i];
      assert ids[i] in ids;
      total := total + values[ids[i]];
    }
    assert ids[..|ids|] == ids;
  }

  function SumMap(values: map<EnvironmentId, nat>, ids: seq<EnvironmentId>): nat
    decreases |ids|
  {
    if ids == [] then 0
    else SumMap(values, ids[..|ids| - 1]) + (if ids[|ids| - 1] in values then values[ids[|ids| - 1]] else 0)
  }

  lemma {:induction false} SumMapIsCount<T(!new)>(values: map<EnvironmentId, nat>, table: seq<T>, home: T -> Option<EnvironmentId>,
                                                  q: T -> bool, ids: seq<EnvironmentId>)
    requires forall id <- ids :: id in values && values[id] == CountAt(table, home, q, id)
    ensures SumMap(values, ids) == SumAt(table, home, q, ids)
    decreases |ids|
  {
    if ids != [] {
      assert ids[|ids| - 1] in ids;
      SumMapIsCount(values, table, home, q, ids[..|ids| - 1]);
    }
  }

  method BuildRows(db: Database, project: ProjectId, environments: seq<Environment>, ids: seq<EnvironmentId>,
                   active: map<EnvironmentId, nat>, degraded: map<EnvironmentId, nat>) returns (rows: seq<EnvironmentRow>)
    requires Keyed(db) && ids == Ids(environments)
    requires var bindings := Select(db.bindings, BindingHome, ids);
             forall id <- ids :: id in active && active[id] == CountAt(bindings, BindingHome, IsActive, id)
    requires var bindings := Select(db.bindings, BindingHome, ids);
             forall id <- ids :: id in degraded && degraded[id] == CountAt(bindings, BindingHome, IsDegraded, id)
    ensures rows == RowsFor(db, project, environments, ids)
  {
    hide Keyed, Select, CountAt, RowFor;
    rows := [];
    for i := 0 to |environments|
      invariant rows == RowsFor(db, project, environments, ids)[..i]
    {
      assert ids[i] in ids;
      var row := BuildRow(db, project, environments[i], ids, active[ids[i]], degraded[ids[i]]);
      rows := rows + [row];
    }
  }

  method BuildProjectOverview(db: Database, project: ProjectId) returns (s: Summary)
    requires Keyed(db)
    ensures s == Expected(db, project)
  {
    var environments := EnvironmentsOf(db.environments, project);
    var ids := Ids(environments);
    DistinctIds(db.environments, project);
    var bindings := Select(db.bindings, BindingHome, ids);
    assert forall b <- bindings :: Within(b, BindingHome, ids);
    var active, degraded := CountHealth(bindings, ids);
    var rows := BuildRows(db, project, environments, ids, active, degraded);
    var allActive := SumValues(active, ids);
    var allDegraded := SumValues(degraded, ids);
    SumMapIsCount(active, bindings, BindingHome, IsActive, ids);
    SumMapIsCount(degraded, bindings, BindingHome, IsDegraded, ids);
    SelectedSum(bindings, BindingHome, IsActive, ids);
    SelectedSum(bindings, BindingHome, IsDegraded, ids);
    hide Count, SumAt, Select, CountAt, SumMap, AuditsOf, Everything;
    s := Summary(|environments|, Count(environments, IsOpen), allActive, allDegraded,
                 Count(Select(db.secrets, SecretHome, ids), IsCurrent),
                 Everything(Select(db.meters, MeterHome, ids)),
                 |AuditsOf(db.audits, project, ids)|, rows);
  }

  // ---- the numbers, in terms of the columns ----

  // The positions of a table that a number counts are given as a set, by what they satisfy.
  lemma {:induction false} CountAtIsSize<T(!new)>(rows: seq<T>, home: T -> Option<EnvironmentId>, q: T -> bool, id: EnvironmentId, s: set<nat>)
    requires forall i: nat :: i in s <==> i < |rows| && home(rows[i]) == Some(id) && q(rows[i])
    ensures CountAt(rows, home, q, id) == |s|
    decreases |rows|
  {
    if rows == [] {
      assert s == {};
    } else {
      var n := |rows| - 1;
      CountAtIsSize(rows[..n], home, q, id, s - {n});
      assert n !in s ==> s - {n} == s;
    }
  }

  lemma RowsAt(db: Database, project: ProjectId, k: nat)
    requires k < |Expected(db, project).rows|
    ensures var environments := EnvironmentsOf(db.environments, project);
            && k < |environments| && environments[k].project == project
            && Expected(db, project).rows[k] == RowFor(db, project, environments[k], Ids(environments))
  {
    assert EnvironmentsOf(db.environments, project)[k] in EnvironmentsOf(db.environments, project);
  }

  // Bindings: those that are ACTIVE, and those in any other status.
  lemma BindingColumnsMean(db: Database, project: ProjectId, k: nat, active: set<nat>, others: set<nat>)
    requires k < |Expected(db, project).rows|
    requires var id := Expected(db, project).rows[k].id;
             forall i: nat :: i in active <==> i < |db.bindings| && db.bindings[i].environment == id && db.bindings[i].status == BindingStatus.Active
    requires var id := Expected(db, project).rows[k].id;
             forall i: nat :: i in others <==> i < |db.bindings| && db.bindings[i].environment == id && db.bindings[i].status != BindingStatus.Active
    ensures Expected(db, project).rows[k].activeBindings == |active|
    ensures Expected(db, project).rows[k].degradedBindings == |others|
  {
    RowsAt(db, project, k);
    hide Expected, CountAt, EnvironmentsOf;
    CountAtIsSize(db.bindings, BindingHome, IsActive, Expected(db, project).rows[k].id, active);
    CountAtIsSize(db.bindings, BindingHome, IsDegraded, Expected(db, project).rows[k].id, others);
  }

  // Secrets and keys: those in use.
  lemma SecretColumnsMean(db: Database, project: ProjectId, k: nat, secrets: set<nat>, keys: set<nat>)
    requires k < |Expected(db, project).rows|
    requires var id := Expected(db, project).rows[k].id;
             forall i: nat :: i in secrets <==> i < |db.secrets| && db.secrets[i].environment == id && db.secrets[i].isActive
    requires var id := Expected(db, project).rows[k].id;
             forall i: nat :: i in keys <==> i < |db.keys| && db.keys[i].environment == id && db.keys[i].isActive
    ensures Expected(db, project).rows[k].secrets == |secrets|
    ensures Expected(db, project).rows[k].keys == |keys|
  {
    RowsAt(db, project, k);
    hide Expected, CountAt, EnvironmentsOf;
    CountAtIsSize(db.secrets, SecretHome, IsCurrent, Expected(db, project).rows[k].id, secrets);
    CountAtIsSize(db.keys, KeyHome, IsUsable, Expected(db, project).rows[k].id, keys);
  }

  // Migrations: those queued or pending, and those drifted.
  lemma MigrationColumnsMean(db: Database, project: ProjectId, k: nat, waiting: set<nat>, drifted: set<nat>)
    requires k < |Expected(db, project).rows|
    requires var id := Expected(db, project).rows[k].id;
             forall i: nat :: i in waiting <==>
               && i < |db.migrations| && db.migrations[i].environment == id
               && (db.migrations[i].status == MigrationStatus.Queued || db.migrations[i].status == MigrationStatus.Pending)
    requires var id := Expected(db, project).rows[k].id;
             forall i: nat :: i in drifted <==> i < |db.migrations| && db.migrations[i].environment == id && db.migrations[i].drifted
    ensures Expected(db, project).rows[k].pendingMigrations == |waiting|
    ensures Expected(db, project).rows[k].driftedMigrations == |drifted|
  {
    RowsAt(db, project, k);
    hide Expected, CountAt, EnvironmentsOf;
    CountAtIsSize(db.migrations, MigrationHome, IsWaiting, Expected(db, project).rows[k].id, waiting);
    CountAtIsSize(db.migrations, MigrationHome, IsDrifted, Expected(db, project).rows[k].id, drifted);
  }

  // Switchovers: the plans whose binding belongs to the environment.
  lemma SwitchoverColumnMeans(db: Database, project: ProjectId, k: nat, plans: set<nat>)
    requires Keyed(db) && k < |Expected(db, project).rows|
    requires var id := Expected(db, project).rows[k].id;
             forall i: nat :: i in plans <==> i < |db.plans| && exists b <- db.bindings :: b.id == db.plans[i].binding && b.environment == id
    ensures Expected(db, project).rows[k].switchovers == |plans|
  {
    RowsAt(db, project, k);
    hide Expected, CountAt, EnvironmentsOf, HomeOfBinding;
    var id := Expected(db, project).rows[k].id;
    forall i: nat | i < |db.plans| ensures i in plans <==> PlanHome(db.bindings)(db.plans[i]) == Some(id) {
      HomeMeans(db.bindings, db.plans[i].binding, id);
    }
    CountAtIsSize(db.plans, PlanHome(db.bindings), AnyPlan, id, plans);
  }

  lemma {:induction false} HomeMeans(bindings: seq<Binding>, id: nat, environment: EnvironmentId)
    requires forall i, j :: 0 <= i < j < |bindings| ==> bindings[i].id != bindings[j].id
    ensures HomeOfBinding(bindings, id) == Some(environment) <==> exists b <- bindings :: b.id == id && b.environment == environment
    decreases |bindings|
  {
    if bindings != [] {
      var rest := bindings[1..];
      HomeMeans(rest, id, environment);
      assert forall b :: b in bindings <==> b == bindings[0] || b in rest;
      assert bindings[0] in bindings;
      if bindings[0].id == id {
        assert forall b <- rest :: b.id != id;
      }
    }
  }

  // Usage and quota: the total of the environment's meters, judged by its own policy.
  lemma UsageColumnsMean(db: Database, project: ProjectId, k: nat)
    requires k < |Expected(db, project).rows|
    ensures var row := Expected(db, project).rows[k];
            var e := EnvironmentsOf(db.environments, project)[k];
            && row.id == e.id && row.labels == e.labels
            && row.usage == Total(db.meters, e.id) && row.quota == Evaluate(row.usage, ThresholdsOf(e.policy))
  {
    RowsAt(db, project, k);
  }

  // Audit entries: today's of the project, all of them for the project and those that name the
  // environment in its row; a project without environments shows none.
  lemma AuditColumnsMean(db: Database, project: ProjectId, k: nat, today: set<nat>, here: set<nat>)
    requires k < |Expected(db, project).rows|
    requires forall i: nat :: i in today <==> i < |db.audits| && db.audits[i].project == Some(project) && db.audits[i].today
    requires var id := Expected(db, project).rows[k].id;
             forall i: nat :: i in here <==> i < |db.audits| && db.audits[i].project == Some(project) && db.audits[i].today
                                             && db.audits[i].environment == Some(id)
    ensures Expected(db, project).audits == |today|
    ensures Expected(db, project).rows[k].audits == |here|
  {
    RowsAt(db, project, k);
    var id, ids := Expected(db, project).rows[k].id, Ids(EnvironmentsOf(db.environments, project));
    var q := (a: Audit) => a.project == Some(project) && a.today;
    var h := (a: Audit) => a.project == Some(project) && a.today && a.environment == Some(id);
    AuditsCounted(db.audits, project, ids, id, q, h);
    CountIsSize(db.audits, q, today);
    CountIsSize(db.audits, h, here);
    hide Count, CountAt, AuditsOf, EnvironmentsOf;
  }

  lemma NoEnvironmentsNoAudits(db: Database, project: ProjectId)
    requires forall e <- db.environments :: e.project != project
    ensures Expected(db, project).environmentCount == 0 && Expected(db, project).audits == 0 && Expected(db, project).rows == []
  {
    var es := EnvironmentsOf(db.environments, project);
    assert es != [] ==> es[0] in es;
  }

  lemma {:induction false} CountIsSize<T(!new)>(rows: seq<T>, q: T -> bool, s: set<nat>)
    requires forall i: nat :: i in s <==> i < |rows| && q(rows[i])
    ensures Count(rows, q) == |s|
    decreases |rows|
  {
    if rows == [] {
      assert s == {};
    } else {
      var n := |rows| - 1;
      CountIsSize(rows[..n], q, s - {n});
      assert n !in s ==> s - {n} == s;
    }
  }

  lemma CountIfOneMore<T>(rows: seq<T>, x: T, q: T -> bool)
    ensures Count(rows + [x], q) == Count(rows, q) + (if q(x) then 1 else 0)
  {
    assert (rows + [x])[..|rows|] == rows;
  }

  lemma {:induction false} AuditsCounted(audits: seq<Audit>, project: ProjectId, ids: seq<EnvironmentId>, id: EnvironmentId,
                                         q: Audit -> bool, h: Audit -> bool)
    requires ids != []
    requires forall a :: q(a) <==> a.project == Some(project) && a.today
    requires forall a :: h(a) <==> q(a) && a.environment == Some(id)
    ensures |AuditsOf(audits, project, ids)| == Count(audits, q)
    ensures CountAt(AuditsOf(audits, project, ids), AuditHome, AnyAudit, id) == Count(audits, h)
    decreases |audits|
  {
    if audits != [] {
      var n := |audits| - 1;
      AuditsCounted(audits[..n], project, ids, id, q, h);
      CountOneMore(AuditsOf(audits[..n], project, ids), audits[n], AuditHome, AnyAudit, id);
      hide CountAt;
    }
  }

  // The project's own numbers: its environments, and the active ones.
  lemma EnvironmentsMean(db: Database, project: ProjectId, own: set<nat>, open: set<nat>)
    requires forall i: nat :: i in own <==> i < |db.environments| && db.environments[i].project == project
    requires forall i: nat :: i in open <==> i < |db.environments| && db.environments[i].project == project && db.environments[i].isActive
    ensures Expected(db, project).environmentCount == |own|
    ensures Expected(db, project).activeEnvironments == |open|
  {
    var q := (e: Environment) => e.project == project;
    var h := (e: Environment) => e.project == project && e.isActive;
    EnvironmentsCounted(db.environments, project, q, h);
    CountIsSize(db.environments, q, own);
    CountIsSize(db.environments, h, open);
    hide Count, EnvironmentsOf;
  }

  lemma {:induction false} EnvironmentsCounted(environments: seq<Environment>, project: ProjectId, q: Environment -> bool, h: Environment -> bool)
    requires forall e :: q(e) <==> e.project == project
    requires forall e :: h(e) <==> e.project == project && e.isActive
    ensures |EnvironmentsOf(environments, project)| == Count(environments, q)
    ensures Count(EnvironmentsOf(environments, project), IsOpen) == Count(environments, h)
    decreases |environments|
  {
    if environments != [] {
      var n := |environments| - 1;
      EnvironmentsCounted(environments[..n], project, q, h);
      CountIfOneMore(EnvironmentsOf(environments[..n], project), environments[n], IsOpen);
    }
  }
}
