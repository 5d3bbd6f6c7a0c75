/**
 The daemon's half of installing and updating catalog models, on the versioned store: what an update
 does, and why no plan is left when all of them have been carried out.
 */
module CatalogUpdate {
  import opened Common
  import opened Bytes
  import opened Keys
  import opened StoreFiles
  import opened StoreContents
  import opened ModelStore
  import opened Updates

  type Root = map<string, ModelDir>

  /** A model is listed when it has a version. */
  predicate Present(root: Root, m: string) { m in root && root[m].versions != map[] }

  function ActiveOf(d: ModelDir): string { if d.current.Some? then d.current.value else "" }

  /* ---------- the inventory ---------- */

  predicate Describes(e: Installed, root: Root, configured: set<string>) {
    && Present(root, e.name) && e.active == ActiveOf(root[e.name]) && e.configured == (e.name in configured)
    && (forall v :: v in e.versions ==> v in root[e.name].versions)
    && (forall v :: v in root[e.name].versions ==> v in e.versions)
  }

  /** The installed models among `names`, each once, as they are on disk. */
  predicate Listed(ms: seq<Installed>, root: Root, configured: set<string>, names: set<string>) {
    && (forall i, j :: 0 <= i < j < |ms| ==> ms[i].name != ms[j].name)
    && (forall i :: 0 <= i < |ms| ==> ms[i].name in names && Describes(ms[i], root, configured))
    && (forall m :: m in names && Present(root, m) ==> HasEntry(ms, m))
  }

  predicate HasEntry(ms: seq<Installed>, m: string) { exists i :: 0 <= i < |ms| && ms[i].name == m }

  predicate Inventory(ms: seq<Installed>, root: Root, configured: set<string>) {
    Listed(ms, root, configured, root.Keys)
  }

  lemma ListedStep(ms: seq<Installed>, root: Root, configured: set<string>, names: set<string>, e: Installed)
    requires Listed(ms, root, configured, names) && Describes(e, root, configured) && e.name !in names
    ensures Listed(ms + [e], root, configured, names + {e.name})
  {
    var more := ms + [e];
    assert more[|ms|] == e;
    forall m | m in names + {e.name} && Present(root, m)
      ensures HasEntry(more, m)
    {
      if m != e.name {
        var i :| 0 <= i < |ms| && ms[i].name == m;
        assert more[i].name == m;
      }
    }
  }

  /** The plan a model is due, read off the disk. */
  function Due(c: Catalog, configured: set<string>, activate: bool, root: Root, m: string): Option<Plan> {
    if m !in c || !Present(root, m) then None
    else
      var switch := activate && m in configured;
      if c[m] !in root[m].versions || (switch && ActiveOf(root[m]) != c[m]) then Some(Plan(m, switch)) else None
  }

  lemma EntryIsDue(c: Catalog, configured: set<string>, activate: bool, root: Root, e: Installed)
    requires Describes(e, root, configured)
    ensures PlanFor(c, e, activate) == Due(c, configured, activate, root, e.name)
  {
  }

  /** The client's plans, sorted rows and all, are exactly those that are due. */
  lemma PlansAreDue(
    c: Catalog, configured: set<string>, activate: bool, root: Root, ms: seq<Installed>, rows: seq<Status>, p: Plan)
    requires Inventory(ms, root, configured) && multiset(rows) == multiset(Rows(c, ms))
    ensures p in Plans(rows, activate) <==> Due(c, configured, activate, root, p.model) == Some(p)
  {
    SortedPlans(Rows(c, ms), rows, activate, p);
    PlansOfRows(c, ms, activate, p);
    forall i | 0 <= i < |ms|
      ensures PlanFor(c, ms[i], activate) == Due(c, configured, activate, root, ms[i].name)
    {
      EntryIsDue(c, configured, activate, root, ms[i]);
    }
  }

  /* ---------- what a successful update does ---------- */

  /** The revision is there beside what was there, it is the active version if asked for, and nothing
      else has changed. */
  predicate Took(c: Catalog, p: Plan, root: Root, after: Root) {
    && p.model in c && Present(root, p.model) && p.model in after
    && after - {p.model} == root - {p.model}
    && after[p.model].versions.Keys == root[p.model].versions.Keys + {c[p.model]}
    && after[p.model].current == if p.activate then Some(c[p.model]) else root[p.model].current
  }

  lemma OthersStay(c: Catalog, configured: set<string>, activate: bool, p: Plan, root: Root, after: Root, m: string)
    requires Took(c, p, root, after) && m != p.model
    ensures Due(c, configured, activate, after, m) == Due(c, configured, activate, root, m)
  {
    assert m in after - {p.model} <==> m in after;
    assert m in root - {p.model} <==> m in root;
    assert m in after ==> after[m] == (after - {p.model})[m] == root[m];
  }

  lemma DoneIsDone(c: Catalog, configured: set<string>, activate: bool, p: Plan, root: Root, after: Root)
    requires Took(c, p, root, after) && p.activate == (activate && p.model in configured)
    ensures Due(c, configured, activate, after, p.model) == None
  {
    assert c[p.model] in after[p.model].versions.Keys;
  }

  /** Plans carried out one after the other, with the disk between them. */
  predicate Carried(c: Catalog, done: seq<Plan>, roots: seq<Root>) {
    |roots| == |done| + 1 && forall i :: 0 <= i < |done| ==> Took(c, done[i], roots[i], roots[i + 1])
  }

  lemma CarriedStep(c: Catalog, done: seq<Plan>, roots: seq<Root>, p: Plan, after: Root)
    requires Carried(c, done, roots) && Took(c, p, roots[|done|], after)
    ensures Carried(c, done + [p], roots + [after])
  {
  }

  predicate Among(done: seq<Plan>, m: string) { exists i :: 0 <= i < |done| && done[i].model == m }

  lemma {:induction false} DueAfter(
    c: Catalog, configured: set<string>, activate: bool, done: seq<Plan>, roots: seq<Root>, m: string)
    requires Carried(c, done, roots)
    requires forall p :: p in done ==> p.activate == (activate && p.model in configured)
    ensures Due(c, configured, activate, roots[|done|], m)
         == if Among(done, m) then None else Due(c, configured, activate, roots[0], m)
  {
    if done != [] {
      var n := |done| - 1;
      DueAfter(c, configured, activate, done[..n], roots[..n + 1], m);
      assert Among(done, m) <==> Among(done[..n], m) || done[n].model == m by {
        if Among(done[..n], m) {
          var i :| 0 <= i < n && done[..n][i].model == m;
          assert done[i].model == m;
        }
      }
      if done[n].model == m {
        DoneIsDone(c, configured, activate, done[n], roots[n], roots[n + 1]);
      } else {
        OthersStay(c, configured, activate, done[n], roots[n], roots[n + 1], m);
      }
    }
  }

  /** There is one plan for a model, so a model has been dealt with when its plan has been. */
  lemma AmongDone(
    c: Catalog, configured: set<string>, activate: bool, root: Root, done: seq<Plan>, p: Plan)
    requires forall q :: q in done ==> Due(c, configured, activate, root, q.model) == Some(q)
    requires Due(c, configured, activate, root, p.model) == Some(p)
    ensures Among(done, p.model) <==> p in done
  {
    if Among(done, p.model) {
      var i :| 0 <= i < |done| && done[i].model == p.model;
      assert done[i] in done;
    }
  }

  lemma DoneWereDue(
    c: Catalog, configured: set<string>, activate: bool, root: Root, done: seq<Plan>, ms: seq<Installed>,
      rows: seq<Status>)
    requires Inventory(ms, root, configured) && multiset(rows) == multiset(Rows(c, ms))
    requires forall q :: q in done ==> q in Plans(rows, activate)
    ensures forall q :: q in done ==> Due(c, configured, activate, root, q.model) == Some(q)
  {
    forall q | q in done
      ensures Due(c, configured, activate, root, q.model) == Some(q)
    {
      PlansAreDue(c, configured, activate, root, ms, rows, q);
    }
  }

  /** After some of the plans have been carried out, those that are drawn up anew are exactly the
      others; after all of them there is none. */
  lemma UpdateAllReachesFixpoint(
    c: Catalog, configured: set<string>, activate: bool, done: seq<Plan>, roots: seq<Root>,
    ms: seq<Installed>, rows: seq<Status>, later: seq<Installed>, laterRows: seq<Status>, p: Plan)
    requires Carried(c, done, roots) && forall q :: q in done ==> q in Plans(rows, activate)
    requires Inventory(ms, roots[0], configured) && multiset(rows) == multiset(Rows(c, ms))
    requires Inventory(later, roots[|done|], configured) && multiset(laterRows) == multiset(Rows(c, later))
    ensures p in Plans(laterRows, activate) <==> p in Plans(rows, activate) && p !in done
  {
    PlansAreDue(c, configured, activate, roots[0], ms, rows, p);
    PlansAreDue(c, configured, activate, roots[|done|], later, laterRows, p);
    DoneWereDue(c, configured, activate, roots[0], done, ms, rows);
    DueAfter(c, configured, activate, done, roots, p.model);
    if Due(c, configured, activate, roots[0], p.model) == Some(p) {
      AmongDone(c, configured, activate, roots[0], done, p);
    }
  }

  /* ---------- when an update goes through ---------- */

  datatype Refusal =
    | NotQualified | LicenseRequired | NotConfigured | Busy | NotInstalled
    | VersionExists | UpdateFailed | DownloadFailed | InstallFailed

  datatype Success = UpToDate | InstalledNow | UpdatedNow

  /** What is found when a model's turn comes: whether its license terms are accepted, whether the
      daemon is idle, the catalog's checksum, and the file the download leaves, if it succeeds. */
  datatype Offer = Offer(licensed: bool, idle: bool, sha256: string, download: Option<Bytes>)

  predicate There(root: Root, m: string, v: string) { m in root && v in root[m].versions }

  /** The checks on the request itself pass. */
  predicate Admitted(c: Catalog, configured: set<string>, root: Root, p: Plan, update: bool, o: Offer) {
    && p.model in c && o.licensed && (p.activate ==> p.model in configured && o.idle)
    && (update ==> Present(root, p.model))
  }

  /** A new version needs a download that matches its checksum; one that is there needs its model
      file, if it is to become the active one. */
  predicate Feasible(hash: Bytes -> string, c: Catalog, root: Root, p: Plan, update: bool, o: Offer)
    requires p.model in c
  {
    if There(root, p.model, c[p.model]) then
      update && (p.activate ==> root[p.model].current == Some(c[p.model]) || HasModel(root[p.model], c[p.model]))
    else
      && p.model != "unnamed" && c[p.model] != "unnamed" && o.sha256 != ""
      && o.download.Some? && o.sha256 == hash(o.download.value)
  }

  predicate GoesThrough(
    hash: Bytes -> string, c: Catalog, configured: set<string>, root: Root, p: Plan, update: bool, o: Offer)
  {
    Admitted(c, configured, root, p, update, o) && Feasible(hash, c, root, p, update, o)
  }

  /** What a refusal says is so. */
  predicate Reason(
    c: Catalog, configured: set<string>, root: Root, p: Plan, update: bool, o: Offer, why: Refusal)
  {
    match why
    case NotQualified => p.model !in c
    case LicenseRequired => !o.licensed
    case NotConfigured => p.activate && p.model !in configured
    case Busy => p.activate && !o.idle
    case NotInstalled => update && !Present(root, p.model)
    case VersionExists => !update && p.model in c && There(root, p.model, c[p.model])
    case UpdateFailed => update
    case DownloadFailed => p.model in c && !There(root, p.model, c[p.model]) && o.download.None?
    case InstallFailed => p.model in c && !There(root, p.model, c[p.model]) && o.download.Some?
  }

  /** What has been done for other models, or for this one, is not in the way. */
  lemma StillGoesThrough(
    hash: Bytes -> string, c: Catalog, configured: set<string>, root: Root, after: Root, p: Plan, q: Plan, o: Offer)
    requires Took(c, p, root, after) && (p.model == q.model ==> p == q)
    requires GoesThrough(hash, c, configured, root, q, true, o)
    ensures GoesThrough(hash, c, configured, after, q, true, o)
  {
    if p.model == q.model {
      assert c[p.model] in after[p.model].versions.Keys;
    } else {
      SameDirectory(c, p, root, after, q.model);
    }
  }

  lemma SameDirectory(c: Catalog, p: Plan, root: Root, after: Root, m: string)
    requires Took(c, p, root, after) && m != p.model
    ensures (m in after <==> m in root) && (m in root ==> after[m] == root[m])
  {
    assert m in after - {p.model} <==> m in after;
    assert m in root - {p.model} <==> m in root;
    assert m in after ==> after[m] == (after - {p.model})[m] == root[m];
  }

  /** One plan for each model. */
  predicate OneEach(plans: seq<Plan>) {
    forall i, j :: 0 <= i < |plans| && 0 <= j < |plans| && plans[i].model == plans[j].model ==> plans[i] == plans[j]
  }

  /** A plan goes through when its turn comes exactly if it would have gone through at the start. */
  lemma {:induction false} TurnMakesNoDifference(
    hash: Bytes -> string, c: Catalog, configured: set<string>, plans: seq<Plan>, done: nat, roots: seq<Root>,
    offers: string -> Offer)
    requires done < |plans| && OneEach(plans) && Carried(c, plans[..done], roots)
    requires forall i :: 0 <= i < done ==>
               GoesThrough(hash, c, configured, roots[0], plans[i], true, offers(plans[i].model))
    ensures GoesThrough(hash, c, configured, roots[done], plans[done], true, offers(plans[done].model))
        <==> GoesThrough(hash, c, configured, roots[0], plans[done], true, offers(plans[done].model))
  {
    var p := plans[done];
    var o := offers(p.model);
    for i := 0 to done
      invariant GoesThrough(hash, c, configured, roots[0], p, true, o)
            ==> GoesThrough(hash, c, configured, roots[i], p, true, o)
      invariant (forall j :: 0 <= j < i ==> plans[j].model != p.model) && Admitted(c, configured, roots[i], p, true, o)
                && Feasible(hash, c, roots[i], p, true, o)
            ==> GoesThrough(hash, c, configured, roots[0], p, true, o)
    {
      assert plans[..done][i] == plans[i] && Took(c, plans[i], roots[i], roots[i + 1]);
      if plans[i].model != p.model {
        SameDirectory(c, plans[i], roots[i], roots[i + 1], p.model);
      }
      if GoesThrough(hash, c, configured, roots[i], p, true, o) {
        StillGoesThrough(hash, c, configured, roots[i], roots[i + 1], plans[i], p, o);
      }
    }
  }

  /* ---------- the code ---------- */

  method ListInstalledModels(s: Store, configured: set<string>) returns (ms: Option<seq<Installed>>)
    requires s.Valid()
    modifies s`crashed
    ensures s.Valid() && s.crashed == old(s.crashed) && (s.Calm() ==> ms.Some?)
    ensures ms.Some? ==> Inventory(ms.value, s.root, configured)
  {
    var entries: seq<Installed> := [];
    var names := SortedKeys(s.root.Keys);
    ghost var seen: set<string> := {};
    for i := 0 to |names|
      invariant s.Valid() && s.crashed == old(s.crashed) && Listed(entries, s.root, configured, seen)
      invariant forall j :: 0 <= j < |names| ==> (names[j] in seen <==> j < i)
      invariant seen <= s.root.Keys
    {
      var ok := s.Reads();
      if !ok {
        return None;
      }
      if s.root[names[i]].versions != map[] {
        var entry := DescribeModel(s, configured, names[i]);
        ListedStep(entries, s.root, configured, seen, entry);
        entries := entries + [entry];
      }
      seen := seen + {names[i]};
    }
    assert seen == s.root.Keys;
    ms := Some(entries);
  }

  method DescribeModel(s: Store, configured: set<string>, m: string) returns (e: Installed)
    requires Present(s.root, m)
    ensures e.name == m && Describes(e, s.root, configured)
  {
    var versions := SortedKeys(s.root[m].versions.Keys);
    e := Installed(m, m in configured, ActiveOf(s.root[m]), versions);
  }

  /** What an update or an installation leaves. */
  twostate predicate Settled(s: Store, c: Catalog, p: Plan, update: bool, new r: Result<Success, Refusal>)
    requires p.model in c
    reads s
  {
    var m, d := p.model, Store.Before(old(s.root), p.model);
    && (r.Ok? && update ==> Took(c, p, old(s.root), s.root))
    && (r.Ok? ==> m in s.root && s.root[m].versions.Keys == d.versions.Keys + {c[m]}
                  && s.root[m].current == (if p.activate then Some(c[m]) else d.current)
                  && r.value == if There(old(s.root), m, c[m]) then UpToDate
                                else if update then UpdatedNow else InstalledNow)
    && (r.Err? && Present(old(s.root), m) ==>
          m in s.root && (s.root[m].versions.Keys == d.versions.Keys
                          || s.root[m].versions.Keys == d.versions.Keys + {c[m]}))
  }

  /** Install or update: what has been done on success, why not otherwise, and, if nothing goes wrong
      with the store, exactly when it succeeds. */
  method InstallCatalogArtifact(
    s: Store, c: Catalog, configured: set<string>, p: Plan, update: bool, o: Offer)
    returns (r: Result<Success, Refusal>)
    requires s.Valid()
    modifies s`root, s`crashed, s`verified
    ensures s.Valid() && s.OnlyModel(p.model)
    ensures !Admitted(c, configured, old(s.root), p, update, o) ==> r.Err? && s.root == old(s.root)
    ensures p.model in c && !update && There(old(s.root), p.model, c[p.model]) ==> r.Err? && s.root == old(s.root)
    ensures p.model in c ==> Settled(s, c, p, update, r)
    ensures r.Err? ==> Reason(c, configured, old(s.root), p, update, o, r.error)
    ensures old(s.Calm()) ==>
              && s.Calm() && (r.Ok? <==> GoesThrough(s.hash, c, configured, old(s.root), p, update, o))
              && (r == Err(UpdateFailed) ==> p.model in c && There(old(s.root), p.model, c[p.model]))
  {
    var m := p.model;
    if m !in c {
      return Err(NotQualified);
    }
    if !o.licensed {
      return Err(LicenseRequired);
    }
    if p.activate {
      if m !in configured {
        return Err(NotConfigured);
      }
      if !o.idle {
        return Err(Busy);
      }
    }
    if update {
      var ok := s.Reads();
      if !ok {
        return Err(UpdateFailed);
      }
      if !Present(s.root, m) {
        return Err(NotInstalled);
      }
    }
    r := CarryOut(s, c, p, update, o);
  }

  /** The part that knows the request is admitted. */
  method CarryOut(s: Store, c: Catalog, p: Plan, update: bool, o: Offer) returns (r: Result<Success, Refusal>)
    requires s.Valid() && p.model in c && (update ==> Present(s.root, p.model))
    modifies s`root, s`crashed, s`verified
    ensures s.Valid() && s.OnlyModel(p.model) && Settled(s, c, p, update, r)
    ensures !update && There(old(s.root), p.model, c[p.model]) ==> r.Err? && s.root == old(s.root)
    ensures r.Err? ==>
              match r.error
              case VersionExists => !update && There(old(s.root), p.model, c[p.model])
              case UpdateFailed => update && There(old(s.root), p.model, c[p.model])
              case DownloadFailed => !There(old(s.root), p.model, c[p.model]) && o.download.None?
              case why => why == InstallFailed && !There(old(s.root), p.model, c[p.model]) && o.download.Some?
    ensures old(s.Calm()) ==> s.Calm() && (r.Ok? <==> Feasible(s.hash, c, old(s.root), p, update, o))
  {
    var m, revision := p.model, c[p.model];
    if m in s.root && revision in s.root[m].versions {
      if !update {
        return Err(Refusal.VersionExists);
      }
      if p.activate {
        r := ActivateIfNeeded(s, m, revision);
        return;
      }
      return Ok(UpToDate);
    }
    if o.download.None? {
      return Err(DownloadFailed);
    }
    r := InstallDownload(s, m, revision, o.sha256, o.download.value, p.activate, update);
  }

  /** The version is there and is to be the active one. */
  method ActivateIfNeeded(s: Store, m: string, revision: string) returns (r: Result<Success, Refusal>)
    requires s.Valid() && m in s.root && revision in s.root[m].versions && revision != ""
    modifies s`root, s`crashed
    ensures s.Valid() && s.OnlyModel(m) && m in s.root && s.root[m].versions == old(s.root)[m].versions
    ensures r == Err(UpdateFailed) || (r == Ok(UpToDate) && s.root[m].current == Some(revision))
    ensures old(s.Calm()) ==>
              && s.Calm()
              && (r.Ok? <==> old(s.root)[m].current == Some(revision) || HasModel(old(s.root)[m], revision))
  {
    var readable := s.Reads();
    var active := if readable then ActiveOf(s.root[m]) else "";
    if active != revision {
      var n: nat := *;
      var done := s.ActivateVersion(m, revision, n);
      if done.Err? {
        return Err(UpdateFailed);
      }
    }
    r := Ok(UpToDate);
  }

  method InstallDownload(
    s: Store, m: string, revision: string, sha256: string, file: Bytes, activate: bool, update: bool)
    returns (r: Result<Success, Refusal>)
    requires s.Valid() && (m in s.root ==> revision !in s.root[m].versions)
    modifies s`root, s`crashed, s`verified
    ensures s.Valid() && s.OnlyModel(m) && (m in old(s.root) ==> m in s.root)
    ensures r == Err(InstallFailed) || r == Ok(if update then UpdatedNow else InstalledNow)
    ensures var d := Store.Before(old(s.root), m);
            && (m in s.root ==>
                  || s.root[m].versions.Keys == d.versions.Keys
                  || s.root[m].versions.Keys == d.versions.Keys + {revision})
            && (r.Ok? ==> m in s.root && s.root[m].versions.Keys == d.versions.Keys + {revision}
                          && s.root[m].current == if activate then Some(revision) else d.current)
    ensures old(s.Calm()) ==>
              && s.Calm()
              && (r.Ok? <==> m != "unnamed" && revision != "unnamed" && sha256 != "" && sha256 == s.hash(file))
  {
    var partial: nat, manifestSize: nat, checksumSize: nat, n: nat := *, *, *, *;
    var p := Package(m, revision, m, file, sha256, partial, manifestSize, checksumSize);
    var installed := s.InstallLocalFile(p, Some(file), activate, n);
    if installed.Err? {
      return Err(InstallFailed);
    }
    r := Ok(if update then UpdatedNow else InstalledNow);
  }

  /** The client's loop over its plans; it stops at the first that is refused, and for no other reason. */
  method RunCatalogActionPlans(
    s: Store, c: Catalog, configured: set<string>, plans: seq<Plan>, offers: string -> Offer)
    returns (done: nat, refusal: Option<Refusal>, ghost roots: seq<Root>)
    requires s.Valid()
    modifies s`root, s`crashed, s`verified
    ensures s.Valid() && done <= |plans| && Carried(c, plans[..done], roots) && roots[0] == old(s.root)
    ensures refusal.Some? <==> done < |plans|
    ensures if done == |plans| then roots[done] == s.root
            else s.root - {plans[done].model} == roots[done] - {plans[done].model}
    ensures refusal.Some? ==>
              Reason(c, configured, roots[done], plans[done], true, offers(plans[done].model), refusal.value)
    ensures old(s.Calm()) ==>
              && s.Calm()
              && (forall i :: 0 <= i < done ==>
                    GoesThrough(s.hash, c, configured, roots[i], plans[i], true, offers(plans[i].model)))
              && (done < |plans| ==>
                    !GoesThrough(s.hash, c, configured, roots[done], plans[done], true, offers(plans[done].model)))
  {
    done, refusal, roots := 0, None, [s.root];
    while done < |plans|
      invariant s.Valid() && done <= |plans| && Carried(c, plans[..done], roots) && roots[0] == old(s.root)
      invariant roots[done] == s.root
      invariant old(s.Calm()) ==>
                  s.Calm() && forall i :: 0 <= i < done ==>
                    GoesThrough(s.hash, c, configured, roots[i], plans[i], true, offers(plans[i].model))
    {
      var p := plans[done];
      var r := InstallCatalogArtifact(s, c, configured, p, true, offers(p.model));
      if r.Err? {
        refusal := Some(r.error);
        return;
      }
      CarriedStep(c, plans[..done], roots, p, s.root);
      assert plans[..done + 1] == plans[..done] + [p];
      roots := roots + [s.root];
      done := done + 1;
    }
    assert plans[..done] == plans;
  }

  /** The plans the client draws up from what the daemon reports: those that are due, sorted rows and all. */
  method DrawUpPlans(s: Store, c: Catalog, configured: set<string>, activate: bool) returns (plans: Option<seq<Plan>>)
    requires s.Valid()
    modifies s`crashed
    ensures s.Valid() && s.crashed == old(s.crashed) && (s.Calm() ==> plans.Some?)
    ensures plans.Some? ==>
              forall p :: p in plans.value <==> Due(c, configured, activate, s.root, p.model) == Some(p)
  {
    var ms := ListInstalledModels(s, configured);
    if ms.None? {
      return None;
    }
    var rows := CatalogUpdateStatuses(c, ms.value);
    var drawn := PendingCatalogUpdatePlans(rows, activate);
    forall p
      ensures p in drawn <==> Due(c, configured, activate, s.root, p.model) == Some(p)
    {
      PlansAreDue(c, configured, activate, s.root, ms.value, rows, p);
    }
    plans := Some(drawn);
  }

  /** Whatever is due could be done. */
  ghost predicate AllGoThrough(
    hash: Bytes -> string, c: Catalog, configured: set<string>, activate: bool, root: Root, offers: string -> Offer)
  {
    forall m :: Due(c, configured, activate, root, m).Some? ==>
      GoesThrough(hash, c, configured, root, Due(c, configured, activate, root, m).value, true, offers(m))
  }

  /** `models update -all`: when it gets through, nothing is due any more, so that drawing up the plans
      again gives none; and if nothing goes wrong with the store it gets through exactly if every
      update that is due could be done. */
  method UpdateAll(s: Store, c: Catalog, configured: set<string>, activate: bool, offers: string -> Offer)
    returns (complete: bool)
    requires s.Valid()
    modifies s`root, s`crashed, s`verified
    ensures s.Valid()
    ensures complete ==> forall m :: Due(c, configured, activate, s.root, m) == None
    ensures old(s.Calm()) ==>
              (complete <==> AllGoThrough(s.hash, c, configured, activate, old(s.root), offers))
  {
    complete := false;
    var plans := DrawUpPlans(s, c, configured, activate);
    if plans.Some? {
      ghost var calm := s.Calm();
      var done, refusal, roots := RunCatalogActionPlans(s, c, configured, plans.value, offers);
      complete := refusal.None?;
      if complete {
        assert plans.value[..done] == plans.value;
        NothingDue(c, configured, activate, plans.value, roots);
      }
      if calm {
        CompleteIff(s.hash, c, configured, activate, plans.value, done, roots, offers);
      }
    }
  }

  lemma CompleteIff(
    hash: Bytes -> string, c: Catalog, configured: set<string>, activate: bool, plans: seq<Plan>, done: nat,
    roots: seq<Root>, offers: string -> Offer)
    requires done <= |plans| && Carried(c, plans[..done], roots)
    requires forall p :: p in plans <==> Due(c, configured, activate, roots[0], p.model) == Some(p)
    requires forall i :: 0 <= i < done ==>
               GoesThrough(hash, c, configured, roots[i], plans[i], true, offers(plans[i].model))
    requires done < |plans| ==>
               !GoesThrough(hash, c, configured, roots[done], plans[done], true, offers(plans[done].model))
    ensures done == |plans| <==> AllGoThrough(hash, c, configured, activate, roots[0], offers)
  {
    assert OneEach(plans) by {
      assert forall i :: 0 <= i < |plans| ==> plans[i] in plans;
    }
    DoneWouldHave(hash, c, configured, plans, done, roots, offers);
    if done < |plans| {
      TurnMakesNoDifference(hash, c, configured, plans, done, roots, offers);
      assert plans[done] in plans;
    } else {
      AllPlanned(hash, c, configured, activate, plans, roots[0], offers);
    }
  }

  /** What has been carried out would have gone through at the start. */
  lemma {:induction false} DoneWouldHave(
    hash: Bytes -> string, c: Catalog, configured: set<string>, plans: seq<Plan>, done: nat, roots: seq<Root>,
    offers: string -> Offer)
    requires done <= |plans| && OneEach(plans) && Carried(c, plans[..done], roots)
    requires forall i :: 0 <= i < done ==>
               GoesThrough(hash, c, configured, roots[i], plans[i], true, offers(plans[i].model))
    ensures forall i :: 0 <= i < done ==>
              GoesThrough(hash, c, configured, roots[0], plans[i], true, offers(plans[i].model))
    decreases done
  {
    if done > 0 {
      var n := done - 1;
      assert plans[..done][..n] == plans[..n] && Carried(c, plans[..n], roots[..n + 1]);
      DoneWouldHave(hash, c, configured, plans, n, roots[..n + 1], offers);
      TurnMakesNoDifference(hash, c, configured, plans, n, roots[..n + 1], offers);
    }
  }

  lemma AllPlanned(
    hash: Bytes -> string, c: Catalog, configured: set<string>, activate: bool, plans: seq<Plan>, root: Root,
    offers: string -> Offer)
    requires forall p :: p in plans <==> Due(c, configured, activate, root, p.model) == Some(p)
    requires forall i :: 0 <= i < |plans| ==>
               GoesThrough(hash, c, configured, root, plans[i], true, offers(plans[i].model))
    ensures AllGoThrough(hash, c, configured, activate, root, offers)
  {
    forall m | Due(c, configured, activate, root, m).Some?
      ensures GoesThrough(hash, c, configured, root, Due(c, configured, activate, root, m).value, true, offers(m))
    {
      assert Due(c, configured, activate, root, m).value in plans;
    }
  }

  lemma NothingDue(c: Catalog, configured: set<string>, activate: bool, plans: seq<Plan>, roots: seq<Root>)
    requires Carried(c, plans, roots)
    requires forall p :: p in plans <==> Due(c, configured, activate, roots[0], p.model) == Some(p)
    ensures forall m :: Due(c, configured, activate, roots[|plans|], m) == None
  {
    forall m
      ensures Due(c, configured, activate, roots[|plans|], m) == None
    {
      DueAfter(c, configured, activate, plans, roots, m);
      var due := Due(c, configured, activate, roots[0], m);
      if due.Some? {
        assert due.value in plans && due.value.model == m;
      }
    }
  }
}
