/**
 The client's half of updating every installed model of the catalog: the rows it makes of the
 inventory and the plans it draws up.
 */
module Updates {
  import opened Common
  import opened Keys

  /** What the daemon reports about an installed model; `active` is empty when there is none. */
  datatype Installed = Installed(name: string, configured: bool, active: string, versions: seq<string>)

  datatype Status = Status(model: string, active: string, catalogVersion: string, configured: bool, available: bool)

  datatype Plan = Plan(model: string, activate: bool)

  /** The revision of each variant that is available and has an artifact; the catalog only accepts
      full commit hashes. */
  type Catalog = c: map<string, string> | forall m :: m in c ==> c[m] != "" witness map[]

  function Row(c: Catalog, m: Installed): Option<Status> {
    if m.name !in c then None else Some(Status(m.name, m.active, c[m.name], m.configured, c[m.name] !in m.versions))
  }

  function Rows(c: Catalog, ms: seq<Installed>): seq<Status> {
    if ms == [] then []
    else Rows(c, ms[..|ms| - 1]) + (match Row(c, ms[|ms| - 1]) case None => [] case Some(row) => [row])
  }

  predicate Pending(row: Status, activate: bool) {
    row.available || (activate && row.configured && row.active != row.catalogVersion)
  }

  function Plans(rows: seq<Status>, activate: bool): seq<Plan> {
    if rows == [] then []
    else
      var row := rows[|rows| - 1];
      Plans(rows[..|rows| - 1], activate)
        + (if Pending(row, activate) then [Plan(row.model, activate && row.configured)] else [])
  }

  /** A row says what is installed and what the catalog has, for each installed model that is in the catalog. */
  lemma {:induction false} RowsAre(c: Catalog, ms: seq<Installed>, row: Status)
    ensures row in Rows(c, ms) <==>
            exists i :: 0 <= i < |ms| && ms[i].name in c && row.model == ms[i].name && row.active == ms[i].active
                        && row.catalogVersion == c[ms[i].name] && row.configured == ms[i].configured
                        && (row.available <==> c[ms[i].name] !in ms[i].versions)
  {
    if ms != [] {
      var n := |ms| - 1;
      RowsAre(c, ms[..n], row);
      assert forall i :: 0 <= i < n ==> ms[..n][i] == ms[i];
      if Row(c, ms[n]) == Some(row) {
        assert ms[n].name in c;
      }
    }
  }

  method CatalogUpdateStatuses(c: Catalog, installed: seq<Installed>) returns (rows: seq<Status>)
    ensures multiset(rows) == multiset(Rows(c, installed))
    ensures forall i, j :: 0 <= i < j < |rows| ==> !Before(rows[j].model, rows[i].model)
  {
    rows := [];
    for i := 0 to |installed|
      invariant rows == Rows(c, installed[..i])
    {
      assert installed[..i + 1][..i] == installed[..i];
      var m := installed[i];
      if m.name !in c {
        continue;
      }
      var catalogInstalled := false;
      for j := 0 to |m.versions|
        invariant !catalogInstalled && c[m.name] !in m.versions[..j]
      {
        if m.versions[j] == c[m.name] {
          catalogInstalled := true;
          break;
        }
      }
      assert catalogInstalled <==> c[m.name] in m.versions;
      rows := rows + [Status(m.name, m.active, c[m.name], m.configured, !catalogInstalled)];
    }
    assert installed[..|installed|] == installed;
    rows := SortBy(rows, (row: Status) => row.model);
    assert forall i, j :: 0 <= i < j < |rows| ==> !Before(rows[j].model, rows[i].model);
  }

  method PendingCatalogUpdatePlans(rows: seq<Status>, activate: bool) returns (plans: seq<Plan>)
    ensures plans == Plans(rows, activate)
  {
    plans := [];
    for i := 0 to |rows|
      invariant plans == Plans(rows[..i], activate)
    {
      assert rows[..i + 1][..i] == rows[..i];
      var row := rows[i];
      if row.available || (activate && row.configured && row.active != row.catalogVersion) {
        plans := plans + [Plan(row.model, activate && row.configured)];
      }
    }
    assert rows[..|rows|] == rows;
  }

  /** The plan for one installed model. */
  function PlanFor(c: Catalog, m: Installed, activate: bool): Option<Plan> {
    match Row(c, m)
    case None => None
    case Some(row) => if Pending(row, activate) then Some(Plan(row.model, activate && row.configured)) else None
  }

  /** p is the plan for one of the installed models. */
  predicate Planned(c: Catalog, ms: seq<Installed>, activate: bool, p: Plan) {
    exists i :: 0 <= i < |ms| && PlanFor(c, ms[i], activate) == Some(p)
  }

  lemma PlannedStep(c: Catalog, ms: seq<Installed>, activate: bool, p: Plan)
    requires ms != []
    ensures Planned(c, ms, activate, p) <==>
            Planned(c, ms[..|ms| - 1], activate, p) || PlanFor(c, ms[|ms| - 1], activate) == Some(p)
  {
    if Planned(c, ms[..|ms| - 1], activate, p) {
      var i :| 0 <= i < |ms| - 1 && PlanFor(c, ms[..|ms| - 1][i], activate) == Some(p);
      assert PlanFor(c, ms[i], activate) == Some(p);
    }
  }

  lemma {:induction false} PlansOfRows(c: Catalog, ms: seq<Installed>, activate: bool, p: Plan)
    ensures p in Plans(Rows(c, ms), activate) <==> Planned(c, ms, activate, p)
  {
    if ms != [] {
      var n := |ms| - 1;
      PlansOfRows(c, ms[..n], activate, p);
      PlannedStep(c, ms, activate, p);
      match Row(c, ms[n])
      case None => assert Rows(c, ms) == Rows(c, ms[..n]);
      case Some(row) => assert Rows(c, ms) == Rows(c, ms[..n]) + [row]
        && (Rows(c, ms[..n]) + [row])[..|Rows(c, ms)| - 1] == Rows(c, ms[..n]);
    }
  }

  lemma {:induction false} PlansElements(rows: seq<Status>, activate: bool, p: Plan)
    ensures p in Plans(rows, activate) <==>
            exists row :: row in rows && Pending(row, activate) && p == Plan(row.model, activate && row.configured)
  {
    if rows != [] {
      PlansElements(rows[..|rows| - 1], activate, p);
      assert rows == rows[..|rows| - 1] + [rows[|rows| - 1]];
    }
  }

  /** Sorting the rows changes the order of the plans and nothing else. */
  lemma SortedPlans(rows: seq<Status>, sorted: seq<Status>, activate: bool, p: Plan)
    requires multiset(rows) == multiset(sorted)
    ensures p in Plans(rows, activate) <==> p in Plans(sorted, activate)
  {
    PlansElements(rows, activate, p);
    PlansElements(sorted, activate, p);
    assert forall row :: row in rows <==> row in multiset(rows);
    assert forall row :: row in sorted <==> row in multiset(sorted);
  }
}
