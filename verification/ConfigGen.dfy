/**
 The generated configuration: what Generate writes, when Validate accepts it, and what the registry
 built from it does with a request that names no target.
 */
module ConfigGen {
  import opened Common
  import opened Keys
  import opened Config
  import opened Registry
  import opened Fallback

  datatype Variant = Variant(id: string, modelType: string, level: string)

  /** `pathOf` joins the model directory, an id and `current/model.gguf`. */
  datatype Options = Options(
    mode: string, socketPath: string, pathOf: string -> string, variants: seq<Variant>, residentId: string,
    runnerCommand: string, threads: int, gpuLayers: int)

  datatype Refusal =
    | UnsupportedMode | NoVariant | BadThreads | BadGpuLayers | SameRoute(route: string) | ResidentNotSelected

  const MINUTE := 60_000_000_000

  function ContextTokens(level: string): int {
    if level == "deep" then 32768 else if level == "balanced" then 16384 else 8192
  }

  function RouteOf(v: Variant): string { v.modelType + "/" + v.level }

  function Command(o: Options): string { if o.runnerCommand == "" then "yllama-runner" else o.runnerCommand }

  function ModelFor(o: Options, v: Variant): Model {
    Model(v.id, o.pathOf(v.id), [], None,
          Backend("process", Command(o), "stdio"), Runtime(ContextTokens(v.level), o.threads, o.gpuLayers))
  }

  /* ---------- what is generated ---------- */

  function RoutesOf(vs: set<Variant>): set<string> { set v | v in vs :: RouteOf(v) }

  predicate RoutesDiffer(vs: seq<Variant>) {
    forall i, j :: 0 <= i < j < |vs| ==> vs[i].modelType + "/" + vs[i].level != vs[j].modelType + "/" + vs[j].level
  }

  predicate Selected(vs: set<Variant>, id: string) { exists v :: v in vs && v.id == id }

  function Elements(vs: seq<Variant>): set<Variant> { set v | v in vs }

  /** When Generate succeeds. */
  predicate CanGenerate(o: Options) {
    && o.mode in {"user", "daemon"} && o.variants != [] && o.threads > 0 && o.gpuLayers >= -1
    && RoutesDiffer(o.variants) && (o.residentId != "" ==> Selected(Elements(o.variants), o.residentId))
  }

  /** What is written for a variant. */
  predicate IsModelOf(o: Options, v: Variant, m: Model) {
    && m.catalogId == v.id && m.modelPath == o.pathOf(v.id) && m.aliases == [] && m.enabled == None
    && m.backend.kind == "process" && m.backend.transport == "stdio"
    && m.backend.command == (if o.runnerCommand == "" then "yllama-runner" else o.runnerCommand)
    && m.runtime.threads == o.threads && m.runtime.gpuLayers == o.gpuLayers
    && m.runtime.contextTokens == (match v.level case "deep" => 32768 case "balanced" => 16384 case _ => 8192)
  }

  /** The models that have been entered. */
  ghost predicate ModelsFor(o: Options, vs: set<Variant>, models: map<string, Model>) {
    && (forall v :: v in vs ==> v.id in models)
    && (forall n :: n in models ==> exists v :: v in vs && v.id == n && IsModelOf(o, v, models[n]))
  }

  predicate HasProfile(groups: map<string, Group>, v: Variant) {
    v.modelType in groups && v.level in groups[v.modelType].profiles
      && groups[v.modelType].profiles[v.level] == Profile(v.id, [])
  }

  predicate DefaultIn(g: Group) { g.defaultProfile in g.profiles }

  /** One group for each model type and one profile for each variant, and nothing else. */
  ghost predicate GroupsFor(vs: set<Variant>, groups: map<string, Group>) {
    && (forall v :: v in vs ==> HasProfile(groups, v))
    && (forall g {:trigger DefaultIn(groups[g])} :: g in groups ==> DefaultIn(groups[g]))
    && (forall g, p :: g in groups && p in groups[g].profiles ==>
       exists v :: v in vs && v.modelType == g && v.level == p)
  }

  /** A group that holds a variant with the resident's id has a default profile that leads to it, as long as
      no level is the empty word. */
  ghost predicate DefaultsFor(vs: set<Variant>, groups: map<string, Group>, id: string) {
    LevelsNamed(vs) ==>
      forall v {:trigger DefaultLeadsTo(groups, v.modelType, id)} :: v in vs && v.id == id ==>
        DefaultLeadsTo(groups, v.modelType, id)
  }

  /** The default profile of a group is the resident's if it is in the group, and otherwise that of the
      first variant in the order of the ids. */
  ghost predicate FirstOrResident(vs: set<Variant>, groups: map<string, Group>, id: string) {
    LevelsNamed(vs) ==>
      forall g {:trigger HasDefault(vs, g, groups[g].defaultProfile, id)} :: g in groups ==>
        HasDefault(vs, g, groups[g].defaultProfile, id)
  }

  ghost predicate HasDefault(vs: set<Variant>, g: string, level: string, id: string) {
    exists v :: IsDefault(vs, g, level, id, v)
  }

  predicate IsDefault(vs: set<Variant>, g: string, level: string, id: string, v: Variant) {
    && v in vs && v.modelType == g && v.level == level
    && (v.id == id || forall w :: w in vs && w.modelType == g ==> w.id != id && !Before(w.id, v.id))
  }

  predicate LevelsNamed(vs: set<Variant>) { forall v :: v in vs ==> v.level != "" }

  predicate DefaultLeadsTo(groups: map<string, Group>, g: string, id: string) {
    && g in groups && groups[g].defaultProfile in groups[g].profiles
    && groups[g].profiles[groups[g].defaultProfile].model == id
  }

  predicate LeadsTo(groups: map<string, Group>, r: Route, id: string) {
    r.group in groups && r.profile in groups[r.group].profiles && groups[r.group].profiles[r.profile].model == id
  }

  /** The resident: as asked for, or the first variant in the order of the ids. */
  predicate ResidentFor(o: Options, id: string) {
    Selected(Elements(o.variants), id)
    && if o.residentId != "" then id == o.residentId
       else forall v :: v in o.variants ==> !Before(v.id, id)
  }

  predicate FixedParts(o: Options, c: Config) {
    && c.operatingMode == o.mode && c.socketPath == o.socketPath
    && c.queuePolicy == "fifo" && c.maxDepth == 128 && c.defaultTimeout == 120_000_000_000
    && c.idleCooldown == 900_000_000_000 && c.maxLoadedModels == 1 && c.updatePolicy == "notify" && c.remotes == map[]
    && c.routing.profilePolicy == "reject" && c.routing.modelPolicy == "use_fallback"
       && c.routing.defaultProvider == "local"
  }

  ghost predicate Generated(o: Options, c: Config) {
    && FixedParts(o, c) && ModelsFor(o, Elements(o.variants), c.models)
       && GroupsFor(Elements(o.variants), c.routing.groups)
    && DefaultsFor(Elements(o.variants), c.routing.groups, c.residentModel)
    && FirstOrResident(Elements(o.variants), c.routing.groups, c.residentModel)
    && ResidentFor(o, c.residentModel) && LeadsTo(c.routing.groups, c.routing.default, c.residentModel)
  }

  /* ---------- the code ---------- */

  /** The groups with one variant more: a profile of its own, and the default if it is the first or the
      resident. */
  function WithVariant(groups: map<string, Group>, v: Variant, resident: bool): map<string, Group> {
    var default := DefaultOf(groups, v.modelType);
    groups[v.modelType := Group(if default == "" || resident then v.level else default,
                                ProfilesOf(groups, v.modelType)[v.level := Profile(v.id, [])])]
  }

  function ModelsAfter(o: Options, vs: seq<Variant>): map<string, Model> {
    if vs == [] then map[]
    else var v := vs[|vs| - 1]; ModelsAfter(o, vs[..|vs| - 1])[v.id := ModelFor(o, v)]
  }

  function GroupsAfter(vs: seq<Variant>, id: string): map<string, Group> {
    if vs == [] then map[]
    else var v := vs[|vs| - 1]; WithVariant(GroupsAfter(vs[..|vs| - 1], id), v, v.id == id)
  }

  method EnterGroup(groups: map<string, Group>, v: Variant, resident: bool) returns (now: map<string, Group>)
    ensures now == WithVariant(groups, v, resident)
  {
    var group := if v.modelType in groups then groups[v.modelType] else Group("", map[]);
    group := group.(profiles := group.profiles[v.level := Profile(v.id, [])]);
    if group.defaultProfile == "" || resident {
      group := group.(defaultProfile := v.level);
    }
    now := groups[v.modelType := group];
  }

  lemma ModelsStep(o: Options, vs: set<Variant>, models: map<string, Model>, v: Variant)
    requires ModelsFor(o, vs, models)
    ensures ModelsFor(o, vs + {v}, models[v.id := ModelFor(o, v)])
  {
    var now := models[v.id := ModelFor(o, v)];
    forall n | n in now
      ensures exists w :: w in vs + {v} && w.id == n && IsModelOf(o, w, now[n])
    {
      if n == v.id {
        assert v in vs + {v};
      } else {
        var w :| w in vs && w.id == n && IsModelOf(o, w, models[n]);
        assert w in vs + {v};
      }
    }
  }

  function ProfilesOf(groups: map<string, Group>, g: string): map<string, Profile> {
    if g in groups then groups[g].profiles else map[]
  }

  function DefaultOf(groups: map<string, Group>, g: string): string {
    if g in groups then groups[g].defaultProfile else ""
  }

  /** The groups before and after a variant has entered its group. */
  predicate Entered(groups: map<string, Group>, v: Variant, resident: bool, now: map<string, Group>) {
    && v.modelType in now && now == groups[v.modelType := now[v.modelType]]
    && now[v.modelType].profiles == ProfilesOf(groups, v.modelType)[v.level := Profile(v.id, [])]
    && now[v.modelType].defaultProfile
       == if resident || DefaultOf(groups, v.modelType) == "" then v.level else DefaultOf(groups, v.modelType)
  }

  lemma ProfilesStay(groups: map<string, Group>, v: Variant, resident: bool, now: map<string, Group>, w: Variant)
    requires Entered(groups, v, resident, now) && HasProfile(groups, w) && RouteOf(w) != RouteOf(v)
    ensures HasProfile(now, w)
  {
  }

  lemma ProfilesCome(groups: map<string, Group>, v: Variant, resident: bool, now: map<string, Group>, g: string,
      p: string)
    requires Entered(groups, v, resident, now) && g in now && p in now[g].profiles
    ensures (g == v.modelType && p == v.level) || (g in groups && p in groups[g].profiles)
  {
  }

  lemma GroupsStep(vs: set<Variant>, groups: map<string, Group>, v: Variant, resident: bool, now: map<string, Group>)
    requires GroupsFor(vs, groups) && Entered(groups, v, resident, now)
    requires forall w :: w in vs ==> RouteOf(w) != RouteOf(v)
    ensures GroupsFor(vs + {v}, now)
  {
    forall w | w in vs + {v}
      ensures HasProfile(now, w)
    {
      if w in vs {
        ProfilesStay(groups, v, resident, now, w);
      }
    }
    forall g | g in now
      ensures DefaultIn(now[g])
    {
      assert g in groups ==> DefaultIn(groups[g]);
    }
    forall g, p | g in now && p in now[g].profiles
      ensures exists w :: w in vs + {v} && w.modelType == g && w.level == p
    {
      ProfilesCome(groups, v, resident, now, g, p);
      if g == v.modelType && p == v.level {
        assert v in vs + {v};
      } else {
        var w :| w in vs && w.modelType == g && w.level == p;
        assert w in vs + {v};
      }
    }
  }

  /** A later variant leaves the default of the resident's group alone, unless it is the resident itself. */
  lemma DefaultsStep(vs: set<Variant>, groups: map<string, Group>, v: Variant, now: map<string, Group>, id: string)
    requires DefaultsFor(vs, groups, id) && GroupsFor(vs, groups) && Entered(groups, v, v.id == id, now)
    requires forall w :: w in vs ==> RouteOf(w) != RouteOf(v)
    ensures DefaultsFor(vs + {v}, now, id)
  {
    assert LevelsNamed(vs + {v}) ==> LevelsNamed(vs) && v.level != "";
    forall w | LevelsNamed(vs + {v}) && w in vs + {v} && w.id == id
      ensures DefaultLeadsTo(now, w.modelType, id)
    {
      if w.modelType == v.modelType && v.id != id {
        assert w in vs && DefaultLeadsTo(groups, w.modelType, id);
        DefaultStays(vs, groups, v, w.modelType);
      } else if w != v && w.modelType != v.modelType {
        assert DefaultLeadsTo(groups, w.modelType, id);
      }
    }
  }

  /** The default profile of a group belongs to a variant that has been entered. */
  lemma DefaultStays(vs: set<Variant>, groups: map<string, Group>, v: Variant, g: string)
    requires GroupsFor(vs, groups) && g in groups && g == v.modelType
    requires (forall w :: w in vs ==> RouteOf(w) != RouteOf(v)) && LevelsNamed(vs)
    ensures groups[g].defaultProfile != "" && groups[g].defaultProfile != v.level
  {
    assert DefaultIn(groups[g]);
    var w :| w in vs && w.modelType == g && w.level == groups[g].defaultProfile;
    assert RouteOf(w) != RouteOf(v);
  }

  /** A variant that comes no earlier in the order becomes the default of its group only if the group is
      new or the variant is the resident. */
  lemma FirstStep(vs: set<Variant>, groups: map<string, Group>, v: Variant, now: map<string, Group>, id: string)
    requires FirstOrResident(vs, groups, id) && GroupsFor(vs, groups) && Entered(groups, v, v.id == id, now)
    requires forall w :: w in vs ==> RouteOf(w) != RouteOf(v) && !Before(v.id, w.id)
    ensures FirstOrResident(vs + {v}, now, id)
  {
    assert LevelsNamed(vs + {v}) ==> LevelsNamed(vs) && v.level != "";
    forall g | LevelsNamed(vs + {v}) && g in now
      ensures HasDefault(vs + {v}, g, now[g].defaultProfile, id)
    {
      if g == v.modelType && (v.id == id || g !in groups) {
        BecomesDefault(vs, groups, v, id);
        assert IsDefault(vs + {v}, g, now[g].defaultProfile, id, v);
      } else {
        assert HasDefault(vs, g, groups[g].defaultProfile, id);
        var w :| IsDefault(vs, g, groups[g].defaultProfile, id, w);
        assert IsDefault(vs + {v}, g, now[g].defaultProfile, id, w);
      }
    }
  }

  lemma BecomesDefault(vs: set<Variant>, groups: map<string, Group>, v: Variant, id: string)
    requires GroupsFor(vs, groups) && (v.id == id || v.modelType !in groups)
    ensures IsDefault(vs + {v}, v.modelType, v.level, id, v)
  {
    assert forall w :: w in vs ==> HasProfile(groups, w);
    BeforeIsStrict(v.id);
  }

  lemma ElementsStep(vs: seq<Variant>, i: nat)
    requires i < |vs|
    ensures Elements(vs[..i + 1]) == Elements(vs[..i]) + {vs[i]}
  {
    assert vs[..i + 1] == vs[..i] + [vs[i]];
  }

  lemma RoutesStep(vs: seq<Variant>, i: nat)
    requires i < |vs| && RoutesDiffer(vs[..i])
    ensures RouteOf(vs[i]) in RoutesOf(Elements(vs[..i])) ==> !RoutesDiffer(vs) && TwoOn(vs, RouteOf(vs[i]))
    ensures RouteOf(vs[i]) !in RoutesOf(Elements(vs[..i])) ==> RoutesDiffer(vs[..i + 1])
  {
    if RouteOf(vs[i]) in RoutesOf(Elements(vs[..i])) {
      var v :| v in Elements(vs[..i]) && RouteOf(v) == RouteOf(vs[i]);
      var j :| 0 <= j < i && vs[j] == v;
      assert RouteOf(vs[j]) == RouteOf(vs[i]);
    } else {
      var now := vs[..i + 1];
      forall j, k | 0 <= j < k < |now|
        ensures RouteOf(now[j]) != RouteOf(now[k])
      {
        if k < i {
          assert RouteOf(vs[..i][j]) != RouteOf(vs[..i][k]);
        } else {
          assert vs[..i][j] in Elements(vs[..i]);
        }
      }
    }
  }

  lemma SelectedStep(vs: set<Variant>, v: Variant, id: string)
    ensures Selected(vs + {v}, id) <==> Selected(vs, id) || v.id == id
  {
    if Selected(vs, id) {
      var w :| w in vs && w.id == id;
      assert w in vs + {v};
    }
    assert v in vs + {v};
  }

  /** What the loop over the variants builds. */
  lemma {:induction false} ModelsAreRight(o: Options, vs: seq<Variant>)
    ensures ModelsFor(o, Elements(vs), ModelsAfter(o, vs))
  {
    if vs != [] {
      var n := |vs| - 1;
      assert vs[..n + 1] == vs;
      ElementsStep(vs, n);
      ModelsAreRight(o, vs[..n]);
      ModelsStep(o, Elements(vs[..n]), ModelsAfter(o, vs[..n]), vs[n]);
    }
  }

  predicate InOrder(vs: seq<Variant>) { forall i, j :: 0 <= i < j < |vs| ==> !Before(vs[j].id, vs[i].id) }

  lemma {:induction false} GroupsAreRight(vs: seq<Variant>, id: string)
    requires RoutesDiffer(vs) && InOrder(vs)
    ensures GroupsFor(Elements(vs), GroupsAfter(vs, id)) && DefaultsFor(Elements(vs), GroupsAfter(vs, id), id)
    ensures FirstOrResident(Elements(vs), GroupsAfter(vs, id), id)
  {
    if vs != [] {
      var n := |vs| - 1;
      var v, done, groups := vs[n], Elements(vs[..n]), GroupsAfter(vs[..n], id);
      assert vs[..n + 1] == vs;
      ElementsStep(vs, n);
      GroupsAreRight(vs[..n], id);
      RoutesAreNew(vs);
      GroupsStep(done, groups, v, v.id == id, GroupsAfter(vs, id));
      DefaultsStep(done, groups, v, GroupsAfter(vs, id), id);
      assert forall w :: w in done ==> w in vs[..n];
      FirstStep(done, groups, v, GroupsAfter(vs, id), id);
    }
  }

  lemma RoutesAreNew(vs: seq<Variant>)
    requires vs != [] && RoutesDiffer(vs)
    ensures forall w :: w in Elements(vs[..|vs| - 1]) ==> RouteOf(w) != RouteOf(vs[|vs| - 1])
  {
    forall w | w in Elements(vs[..|vs| - 1])
      ensures RouteOf(w) != RouteOf(vs[|vs| - 1])
    {
      var j :| 0 <= j < |vs| - 1 && vs[j] == w;
    }
  }

  /** The loop over the sorted variants. */
  method EnterAll(o: Options, vs: seq<Variant>, residentId: string)
    returns (clash: Option<string>, models: map<string, Model>, groups: map<string, Group>, residentFound: bool)
    ensures clash.Some? <==> !RoutesDiffer(vs)
    ensures clash.Some? ==> TwoOn(vs, clash.value)
    ensures clash.None? ==>
              && models == ModelsAfter(o, vs) && groups == GroupsAfter(vs, residentId)
              && (residentFound <==> Selected(Elements(vs), residentId))
  {
    models, groups, residentFound := map[], map[], false;
    var routes: map<string, string> := map[];
    for i := 0 to |vs|
      invariant RoutesDiffer(vs[..i]) && routes.Keys == RoutesOf(Elements(vs[..i]))
      invariant models == ModelsAfter(o, vs[..i]) && groups == GroupsAfter(vs[..i], residentId)
      invariant residentFound <==> Selected(Elements(vs[..i]), residentId)
    {
      RoutesStep(vs, i);
      if RouteOf(vs[i]) in routes {
        return Some(RouteOf(vs[i])), models, groups, residentFound;
      }
      routes, models, groups, residentFound := EnterOne(o, vs, i, residentId, routes, models, groups, residentFound);
    }
    assert vs[..|vs|] == vs;
    clash := None;
  }

  /** The rest of one turn. */
  method EnterOne(
    o: Options, vs: seq<Variant>, i: nat, residentId: string,
    routes: map<string, string>, models: map<string, Model>, groups: map<string, Group>, found: bool)
    returns (routes': map<string, string>, models': map<string, Model>, groups': map<string, Group>, found': bool)
    requires i < |vs| && routes.Keys == RoutesOf(Elements(vs[..i]))
    requires models == ModelsAfter(o, vs[..i]) && groups == GroupsAfter(vs[..i], residentId)
    requires found <==> Selected(Elements(vs[..i]), residentId)
    ensures routes'.Keys == RoutesOf(Elements(vs[..i + 1]))
    ensures models' == ModelsAfter(o, vs[..i + 1]) && groups' == GroupsAfter(vs[..i + 1], residentId)
    ensures found' <==> Selected(Elements(vs[..i + 1]), residentId)
  {
    var v := vs[i];
    ElementsStep(vs, i);
    SelectedStep(Elements(vs[..i]), v, residentId);
    assert vs[..i + 1][..i] == vs[..i];
    routes' := EnterRoute(routes, Elements(vs[..i]), v);
    found' := found || v.id == residentId;
    models' := models[v.id := ModelFor(o, v)];
    groups' := EnterGroup(groups, v, v.id == residentId);
  }

  method EnterRoute(routes: map<string, string>, ghost done: set<Variant>, v: Variant)
      returns (now: map<string, string>)
    requires routes.Keys == RoutesOf(done)
    ensures now.Keys == RoutesOf(done + {v})
  {
    NewRoute(done, v);
    now := routes[RouteOf(v) := v.id];
  }

  lemma NewRoute(done: set<Variant>, v: Variant)
    ensures RoutesOf(done + {v}) == RoutesOf(done) + {RouteOf(v)}
    ensures RouteOf(v) !in RoutesOf(done) ==> forall w :: w in done ==> RouteOf(w) != RouteOf(v)
  {
    assert v in done + {v};
  }

  /** The last loops: any profile that leads to the resident, whatever the order. */
  method DefaultRoute(groups: map<string, Group>, residentId: string) returns (route: Route)
    requires exists r :: LeadsTo(groups, r, residentId)
    ensures LeadsTo(groups, route, residentId)
  {
    route := Route("", "");
    var found := false;
    var left := groups.Keys;
    while left != {}
      invariant left <= groups.Keys && (found ==> LeadsTo(groups, route, residentId))
      invariant !found ==> forall r :: LeadsTo(groups, r, residentId) ==> r.group in left
      decreases left
    {
      var g :| g in left;
      left := left - {g};
      var profiles := groups[g].profiles.Keys;
      while profiles != {}
        invariant profiles <= groups[g].profiles.Keys && (found ==> LeadsTo(groups, route, residentId))
        invariant !found ==> forall r :: LeadsTo(groups, r, residentId) ==>
                  r.group in left || (r.group == g && r.profile in profiles)
        decreases profiles
      {
        var p :| p in profiles;
        profiles := profiles - {p};
        if groups[g].profiles[p].model == residentId {
          route, found := Route(g, p), true;
        }
      }
    }
  }

  lemma SameVariants(vs: seq<Variant>, ws: seq<Variant>)
    requires multiset(vs) == multiset(ws)
    ensures Elements(vs) == Elements(ws)
  {
    assert forall v :: v in vs <==> v in multiset(vs);
    assert forall v :: v in ws <==> v in multiset(ws);
  }

  /** Two of the variants are on route r. */
  ghost predicate TwoOn(vs: seq<Variant>, r: string) {
    exists i, j :: 0 <= i < j < |vs| && RouteOf(vs[i]) == r == RouteOf(vs[j])
  }

  /** Whether two variants are on one route does not depend on the order. */
  lemma TwoOnInAnyOrder(vs: seq<Variant>, ws: seq<Variant>, r: string)
    requires multiset(vs) == multiset(ws) && TwoOn(ws, r)
    ensures TwoOn(vs, r)
  {
    var i, j :| 0 <= i < j < |ws| && RouteOf(ws[i]) == r == RouteOf(ws[j]);
    if ws[i] == ws[j] {
      Twice(ws, i, j);
      if !TwoOn(vs, r) {
        Once(vs, ws[i]);
      }
    } else {
      assert ws[i] in multiset(ws) && ws[j] in multiset(ws);
      var a :| 0 <= a < |vs| && vs[a] == ws[i];
      var b :| 0 <= b < |vs| && vs[b] == ws[j];
      assert RouteOf(vs[a]) == r == RouteOf(vs[b]);
    }
  }

  lemma Twice(ws: seq<Variant>, i: nat, j: nat)
    requires i < j < |ws| && ws[i] == ws[j]
    ensures multiset(ws)[ws[i]] >= 2
  {
    assert ws == ws[..j] + [ws[j]] + ws[j + 1..];
    assert ws[..j][i] == ws[i];
  }

  lemma {:induction false} Once(vs: seq<Variant>, v: Variant)
    requires !TwoOn(vs, RouteOf(v))
    ensures multiset(vs)[v] <= 1
  {
    if vs != [] {
      var n := |vs| - 1;
      assert vs == vs[..n] + [vs[n]];
      assert forall i :: 0 <= i < n ==> vs[..n][i] == vs[i];
      Once(vs[..n], v);
      if vs[n] == v {
        forall i | 0 <= i < n
          ensures vs[..n][i] != v
        {
          assert RouteOf(vs[i]) != RouteOf(vs[n]);
        }
        assert v !in vs[..n];
      }
    }
  }

  /** What a refusal says is so. */
  ghost predicate Reason(o: Options, why: Refusal) {
    match why
    case UnsupportedMode => o.mode != "user" && o.mode != "daemon"
    case NoVariant => o.variants == []
    case BadThreads => o.threads <= 0
    case BadGpuLayers => o.gpuLayers < -1
    case SameRoute(r) => TwoOn(o.variants, r)
    case ResidentNotSelected => o.residentId != "" && !Selected(Elements(o.variants), o.residentId)
  }

  method SortVariants(vs: seq<Variant>) returns (sorted: seq<Variant>)
    ensures |sorted| == |vs| && InOrder(sorted) && Elements(sorted) == Elements(vs)
    ensures RoutesDiffer(sorted) <==> RoutesDiffer(vs)
    ensures forall r :: TwoOn(sorted, r) <==> TwoOn(vs, r)
  {
    sorted := SortBy(vs, (v: Variant) => v.id);
    assert InOrder(sorted);
    assert |multiset(sorted)| == |sorted|;
    SameVariants(sorted, vs);
    SameRoutes(sorted, vs);
  }

  /** Generate succeeds exactly under the conditions it checks, and what it writes is as described. */
  method Generate(o: Options) returns (out: Result<Config, Refusal>)
    ensures out.Ok? <==> CanGenerate(o)
    ensures match out case Ok(c) => Generated(o, c) case Err(why) => Reason(o, why)
  {
    if o.mode != "user" && o.mode != "daemon" {
      return Err(UnsupportedMode);
    }
    if o.variants == [] {
      return Err(NoVariant);
    }
    if o.threads <= 0 {
      return Err(BadThreads);
    }
    if o.gpuLayers < -1 {
      return Err(BadGpuLayers);
    }
    var sorted := SortVariants(o.variants);
    var residentId := if o.residentId == "" then sorted[0].id else o.residentId;
    ResidentChosen(o, sorted, residentId);
    out := FromSorted(o, sorted, residentId);
  }

  method FromSorted(o: Options, sorted: seq<Variant>, residentId: string) returns (out: Result<Config, Refusal>)
    requires Elements(sorted) == Elements(o.variants) && InOrder(sorted)
             && (Selected(Elements(o.variants), residentId) ==> ResidentFor(o, residentId))
    ensures out.Ok? <==> RoutesDiffer(sorted) && Selected(Elements(o.variants), residentId)
    ensures match out
            case Ok(c) => Generated(o, c)
            case Err(SameRoute(r)) => TwoOn(sorted, r)
            case Err(why) => why == ResidentNotSelected && !Selected(Elements(o.variants), residentId)
  {
    var clash, models, groups, residentFound := EnterAll(o, sorted, residentId);
    if clash.Some? {
      return Err(SameRoute(clash.value));
    }
    if !residentFound {
      return Err(ResidentNotSelected);
    }
    ModelsAreRight(o, sorted);
    GroupsAreRight(sorted, residentId);
    var c := Assemble(o, residentId, models, groups);
    out := Ok(c);
  }

  method Assemble(o: Options, residentId: string, models: map<string, Model>, groups: map<string, Group>)
      returns (c: Config)
    requires ModelsFor(o, Elements(o.variants), models) && GroupsFor(Elements(o.variants), groups)
    requires DefaultsFor(Elements(o.variants), groups, residentId) && ResidentFor(o, residentId)
    requires FirstOrResident(Elements(o.variants), groups, residentId)
    ensures Generated(o, c)
  {
    ResidentHasRoute(Elements(o.variants), groups, residentId);
    var route := DefaultRoute(groups, residentId);
    c := Config(
      o.mode, o.socketPath, "fifo", 128, 2 * MINUTE, residentId, 15 * MINUTE, 1, "notify", models,
      Routing(route, "reject", "use_fallback", groups, "local"), map[]);
  }

  lemma SameRoutes(vs: seq<Variant>, ws: seq<Variant>)
    requires multiset(vs) == multiset(ws)
    ensures RoutesDiffer(vs) <==> RoutesDiffer(ws)
    ensures forall r :: TwoOn(vs, r) <==> TwoOn(ws, r)
  {
    forall r
      ensures TwoOn(vs, r) <==> TwoOn(ws, r)
    {
      if TwoOn(ws, r) {
        TwoOnInAnyOrder(vs, ws, r);
      }
      if TwoOn(vs, r) {
        TwoOnInAnyOrder(ws, vs, r);
      }
    }
    DifferIfNotTwo(vs);
    DifferIfNotTwo(ws);
  }

  lemma DifferIfNotTwo(vs: seq<Variant>)
    ensures RoutesDiffer(vs) <==> forall r :: !TwoOn(vs, r)
  {
    if !RoutesDiffer(vs) {
      var i, j :| 0 <= i < j < |vs| && RouteOf(vs[i]) == RouteOf(vs[j]);
      assert TwoOn(vs, RouteOf(vs[i]));
    }
  }

  lemma ResidentChosen(o: Options, sorted: seq<Variant>, id: string)
    requires sorted != [] && Elements(sorted) == Elements(o.variants)
    requires InOrder(sorted)
    requires id == if o.residentId == "" then sorted[0].id else o.residentId
    ensures Selected(Elements(o.variants), id) <==>
            (o.residentId != "" ==> Selected(Elements(o.variants), o.residentId))
    ensures Selected(Elements(o.variants), id) ==> ResidentFor(o, id)
  {
    LeastIsResident(o, sorted);
  }

  lemma LeastIsResident(o: Options, sorted: seq<Variant>)
    requires sorted != [] && Elements(sorted) == Elements(o.variants)
    requires forall i, j :: 0 <= i < j < |sorted| ==> !Before(sorted[j].id, sorted[i].id)
    ensures Selected(Elements(sorted), sorted[0].id) && forall v :: v in o.variants ==> !Before(v.id, sorted[0].id)
  {
    assert sorted[0] in Elements(sorted);
    forall v | v in o.variants
      ensures !Before(v.id, sorted[0].id)
    {
      assert v in Elements(o.variants);
      var j :| 0 <= j < |sorted| && sorted[j] == v;
      BeforeIsStrict(v.id);
    }
  }

  lemma ResidentHasRoute(vs: set<Variant>, groups: map<string, Group>, id: string)
    requires GroupsFor(vs, groups) && Selected(vs, id)
    ensures exists r :: LeadsTo(groups, r, id)
  {
    var v :| v in vs && v.id == id;
    assert HasProfile(groups, v);
    assert LeadsTo(groups, Route(v.modelType, v.level), id);
  }

  /* ---------- what Validate and the registry make of it ---------- */

  /** What the catalog guarantees of its variants. */
  predicate CatalogValid(o: Options) {
    forall v :: v in o.variants ==> FromCatalog(v)
  }

  predicate FromCatalog(v: Variant) { v.modelType in {"llm", "code"} && v.level in {"fast", "balanced", "deep"} }

  lemma CatalogWordsAreIdentifiers()
    ensures ValidIdentifier("llm") && ValidIdentifier("code") && ValidIdentifier("fast")
            && ValidIdentifier("balanced") && ValidIdentifier("deep")
  {
  }

  lemma ModelIsOk(o: Options, vs: set<Variant>, models: map<string, Model>, n: string)
    requires ModelsFor(o, vs, models) && n in models && o.threads > 0 && o.gpuLayers >= -1
    ensures models[n].aliases == [] && (n != "" ==> ModelOk(models[n]))
  {
    var v :| v in vs && v.id == n && IsModelOf(o, v, models[n]);
  }

  /** Without aliases an identifier is a name. */
  lemma NamesOnly(models: map<string, Model>)
    requires forall n :: n in models ==> models[n].aliases == []
    ensures Unambiguous(models) && ClaimedOnce(models, models.Keys)
    ensures forall id :: Canonical(models, id) == if id in models then Some(id) else None
  {
  }

  lemma GeneratedModelsOk(o: Options, vs: set<Variant>, models: map<string, Model>)
    requires ModelsFor(o, vs, models) && o.threads > 0 && o.gpuLayers >= -1
    ensures Unambiguous(models)
    ensures forall id :: Canonical(models, id) == if id in models then Some(id) else None
    ensures ModelsOk(models, models.Keys) <==> forall v :: v in vs ==> ValidIdentifier(v.id)
  {
    forall n | n in models
      ensures models[n].aliases == [] && (n != "" ==> ModelOk(models[n]))
    {
      ModelIsOk(o, vs, models, n);
    }
    NamesOnly(models);
  }

  lemma GeneratedProfileOk(vs: set<Variant>, models: map<string, Model>, groups: map<string, Group>, g: string,
      p: string)
    requires GroupsFor(vs, groups) && g in groups && p in groups[g].profiles
    requires forall v :: v in vs ==> FromCatalog(v) && v.id in models
    ensures ValidIdentifier(g) && ValidIdentifier(p) && ProfileOk(models, groups[g].profiles[p])
  {
    CatalogWordsAreIdentifiers();
    var v :| v in vs && v.modelType == g && v.level == p;
    assert HasProfile(groups, v);
    SingleCandidate(models, groups[g].profiles[p]);
  }

  lemma GeneratedGroupOk(vs: set<Variant>, models: map<string, Model>, groups: map<string, Group>, g: string)
    requires GroupsFor(vs, groups) && g in groups
    requires forall v :: v in vs ==> FromCatalog(v) && v.id in models
    ensures ValidIdentifier(g) && GroupOk(models, groups[g])
  {
    var group := groups[g];
    assert DefaultIn(group);
    GeneratedProfileOk(vs, models, groups, g, group.defaultProfile);
    forall p | p in group.profiles
      ensures ValidIdentifier(p) && ProfileOk(models, group.profiles[p])
    {
      GeneratedProfileOk(vs, models, groups, g, p);
    }
  }

  lemma GeneratedGroupsOk(vs: set<Variant>, models: map<string, Model>, groups: map<string, Group>)
    requires GroupsFor(vs, groups) && forall v :: v in vs ==> FromCatalog(v) && v.id in models
    ensures forall g :: g in groups ==> ValidIdentifier(g) && GroupOk(models, groups[g])
  {
    forall g | g in groups
      ensures ValidIdentifier(g) && GroupOk(models, groups[g])
    {
      GeneratedGroupOk(vs, models, groups, g);
    }
  }

  lemma SingleCandidate(models: map<string, Model>, p: Profile)
    requires p.fallbacks == [] && p.model in models
    ensures ProfileOk(models, p)
  {
    assert Candidates(p) == [p.model];
  }

  lemma FixedPartsAreOk(o: Options, c: Config)
    requires FixedParts(o, c) && o.mode in {"user", "daemon"} && c.models != map[]
    ensures (GeneralOk(c) <==> o.socketPath != "") && PoliciesOk(c.routing) && c.remotes == map[]
  {
    assert c.updatePolicy in {"manual", "notify", "download", "auto"};
  }

  /** What is left of Accepted once the parts are known. */
  lemma AcceptedParts(c: Config)
    requires PoliciesOk(c.routing) && DefaultOk(c.routing) && c.remotes == map[]
             && Canonical(c.models, c.residentModel).Some?
    requires forall g :: g in c.routing.groups ==> ValidIdentifier(g) && GroupOk(c.models, c.routing.groups[g])
    ensures Accepted(c) <==> GeneralOk(c) && ModelsOk(c.models, c.models.Keys)
  {
  }

  /** A generated configuration passes Validate if and only if the ids are identifiers and there is a
      socket path: everything else Validate checks holds of whatever is generated. */
  lemma GeneratedIsAcceptedIff(o: Options, c: Config)
    requires CanGenerate(o) && Generated(o, c) && CatalogValid(o)
    ensures Accepted(c) <==> o.socketPath != "" && forall v :: v in Elements(o.variants) ==> ValidIdentifier(v.id)
  {
    var vs := Elements(o.variants);
    GeneratedModelsOk(o, vs, c.models);
    GeneratedGroupsOk(vs, c.models, c.routing.groups);
    ResidentIsModel(o, c);
    DefaultIsOk(c);
    FixedPartsAreOk(o, c);
    AcceptedParts(c);
  }

  lemma ResidentIsModel(o: Options, c: Config)
    requires Generated(o, c)
    ensures c.residentModel in c.models
  {
    var v :| v in Elements(o.variants) && v.id == c.residentModel;
  }

  lemma DefaultIsOk(c: Config)
    requires LeadsTo(c.routing.groups, c.routing.default, c.residentModel)
    requires forall g, p :: g in c.routing.groups && p in c.routing.groups[g].profiles ==> p != ""
    ensures DefaultOk(c.routing)
  {
  }

  lemma DefaultAlone(r: Registry, id: string, available: string -> bool)
    requires Built(r) && Unambiguous(r.cfg.models) && id in r.cfg.models && r.cfg.routing.default.profile != ""
    requires var d, groups := r.cfg.routing.default, r.cfg.routing.groups;
             d.group in groups && d.profile in groups[d.group].profiles
               && groups[d.group].profiles[d.profile] == Profile(id, [])
    ensures match ResolveTarget(r, Target("", "", ""), available)
            case Ok(x) => x.model == id && available(id) && x.fallbacks == [] && !x.usedFallback
            case Err(e) => e == Unavailable && !available(id)
  {
    var w := FindProfile(r.cfg, Target("", "", "")).value;
    assert Candidates(w.chosen) == [id];
    BuiltIsCanonical(r, id);
    assert Scan(r, [id], 0, available) == if available(id) then Ok(0) else Err(Unavailable);
  }

  /** In the registry built from it, a request that names no target goes to the resident and nowhere
      else, whatever may be available. */
  lemma EmptyTargetIsResident(o: Options, c: Config, r: Registry, available: string -> bool)
    requires Generated(o, c) && Accepted(c) && r.cfg == c && Built(r)
    ensures ResidentFor(o, c.residentModel)
    ensures match ResolveTarget(r, Target("", "", ""), available)
            case Ok(x) => x.model == c.residentModel && available(x.model) && x.fallbacks == [] && !x.usedFallback
            case Err(e) => e == Unavailable && !available(c.residentModel)
  {
    AcceptedIsUnambiguous(c);
    ResidentIsModel(o, c);
    DefaultIsPlain(o, c);
    DefaultAlone(r, c.residentModel, available);
  }

  /** A request that names only a group of the resident's goes to the resident too. */
  lemma GroupTargetIsResident(o: Options, c: Config, r: Registry, v: Variant, available: string -> bool)
    requires Generated(o, c) && Accepted(c) && r.cfg == c && Built(r)
    requires CatalogValid(o) && v in Elements(o.variants) && v.id == c.residentModel
    ensures match ResolveTarget(r, Target("", v.modelType, ""), available)
            case Ok(x) => x.model == c.residentModel && available(x.model) && x.fallbacks == [] && !x.usedFallback
            case Err(e) => e == Unavailable && !available(c.residentModel)
  {
    AcceptedIsUnambiguous(c);
    ResidentIsModel(o, c);
    assert forall w :: w in Elements(o.variants) ==> FromCatalog(w);
    GroupDefaultIsPlain(Elements(o.variants), c.routing.groups, v, c.residentModel);
    GroupAlone(r, v.modelType, c.residentModel, available);
  }

  lemma GroupDefaultIsPlain(vs: set<Variant>, groups: map<string, Group>, v: Variant, id: string)
    requires GroupsFor(vs, groups) && DefaultsFor(vs, groups, id) && LevelsNamed(vs) && v in vs && v.id == id
    ensures v.modelType in groups && groups[v.modelType].defaultProfile != ""
    ensures Find(groups[v.modelType].profiles, groups[v.modelType].defaultProfile) == Some(Profile(id, []))
  {
    assert DefaultLeadsTo(groups, v.modelType, id);
    var group := groups[v.modelType];
    var w :| w in vs && w.modelType == v.modelType && w.level == group.defaultProfile;
    assert HasProfile(groups, w);
  }

  lemma GroupAlone(r: Registry, g: string, id: string, available: string -> bool)
    requires Built(r) && Unambiguous(r.cfg.models) && id in r.cfg.models
    requires var groups := r.cfg.routing.groups;
             && g != "" && g in groups && groups[g].defaultProfile != ""
             && Find(groups[g].profiles, groups[g].defaultProfile) == Some(Profile(id, []))
    ensures match ResolveTarget(r, Target("", g, ""), available)
            case Ok(x) => x.model == id && available(id) && x.fallbacks == [] && !x.usedFallback
            case Err(e) => e == Unavailable && !available(id)
  {
    var w := FindProfile(r.cfg, Target("", g, "")).value;
    assert Candidates(w.chosen) == [id];
    BuiltIsCanonical(r, id);
    assert Scan(r, [id], 0, available) == if available(id) then Ok(0) else Err(Unavailable);
  }

  lemma DefaultIsPlain(o: Options, c: Config)
    requires Generated(o, c) && Accepted(c)
    ensures var d, groups := c.routing.default, c.routing.groups;
            d.profile != "" && d.group in groups && d.profile in groups[d.group].profiles
            && groups[d.group].profiles[d.profile] == Profile(c.residentModel, [])
  {
    var d, groups := c.routing.default, c.routing.groups;
    var v :| v in Elements(o.variants) && v.modelType == d.group && v.level == d.profile;
    assert HasProfile(groups, v);
    assert GroupOk(c.models, groups[d.group]);
  }

  /* ---------- what each variant gets ---------- */

  /** The fields of the model a variant becomes; two variants may share an id, and then the later one's
      level decides. */
  predicate ModelFields(o: Options, vs: set<Variant>, v: Variant, m: Model) {
    && m.catalogId == v.id && m.modelPath == o.pathOf(v.id) && m.enabled == None
    && m.backend == Backend("process", if o.runnerCommand == "" then "yllama-runner" else o.runnerCommand, "stdio")
    && ((forall w :: w in vs && w.id == v.id ==> w == v) ==>
          m.runtime == Runtime(if v.level == "deep" then 32768 else if v.level == "balanced" then 16384 else 8192,
                               o.threads, o.gpuLayers))
  }

  /** Every selected variant becomes a model at its own path and a profile of its own, and nothing else
      becomes a model. */
  lemma EachVariant(o: Options, c: Config, v: Variant)
    requires Generated(o, c) && v in o.variants
    ensures v.id in c.models && ModelFields(o, Elements(o.variants), v, c.models[v.id])
    ensures forall n :: n in c.models <==> Selected(Elements(o.variants), n)
    ensures v.modelType in c.routing.groups && v.level in c.routing.groups[v.modelType].profiles
            && c.routing.groups[v.modelType].profiles[v.level] == Profile(v.id, [])
  {
    assert v in Elements(o.variants);
    FieldsOf(o, Elements(o.variants), c.models, v);
    ModelNames(o, Elements(o.variants), c.models);
    assert HasProfile(c.routing.groups, v);
  }

  lemma FieldsOf(o: Options, vs: set<Variant>, models: map<string, Model>, v: Variant)
    requires ModelsFor(o, vs, models) && v in vs
    ensures v.id in models && ModelFields(o, vs, v, models[v.id])
  {
    var w :| w in vs && w.id == v.id && IsModelOf(o, w, models[v.id]);
  }

  lemma ModelNames(o: Options, vs: set<Variant>, models: map<string, Model>)
    requires ModelsFor(o, vs, models)
    ensures forall n :: n in models <==> Selected(vs, n)
  {
  }

  /* ---------- the hypotheses of the theorems can be met ---------- */

  const SMALL := Variant("m", "llm", "fast")

  function SmallOptions(pathOf: string -> string): Options { Options("user", "s", pathOf, [SMALL], "", "", 1, 0) }

  const SMALL_GROUPS: map<string, Group> := map["llm" := Group("fast", map["fast" := Profile("m", [])])]

  /** What is generated for a single variant. */
  function SmallConfig(pathOf: string -> string): Config {
    Config("user", "s", "fifo", 128, 2 * MINUTE, "m", 15 * MINUTE, 1, "notify",
           map["m" := ModelFor(SmallOptions(pathOf), SMALL)],
           Routing(Route("llm", "fast"), "reject", "use_fallback", SMALL_GROUPS, "local"), map[])
  }

  lemma SmallIsGenerated(pathOf: string -> string)
    ensures CanGenerate(SmallOptions(pathOf)) && Generated(SmallOptions(pathOf), SmallConfig(pathOf))
  {
    var o := SmallOptions(pathOf);
    assert Elements(o.variants) == {SMALL};
    assert HasProfile(SMALL_GROUPS, SMALL) && DefaultIn(SMALL_GROUPS["llm"]);
    assert SMALL in Elements(o.variants);
    BeforeIsStrict("m");
    assert IsDefault({SMALL}, "llm", "fast", "m", SMALL);
    assert HasDefault({SMALL}, "llm", "fast", "m");
  }

  lemma SmallIsValid(pathOf: string -> string)
    ensures CatalogValid(SmallOptions(pathOf)) && SmallOptions(pathOf).socketPath != ""
    ensures forall v :: v in Elements(SmallOptions(pathOf).variants) ==> ValidIdentifier(v.id)
  {
    assert ValidIdentifier(SMALL.id);
    assert Elements(SmallOptions(pathOf).variants) == {SMALL};
  }

  lemma SmallIsAccepted(o: Options, c: Config, pathOf: string -> string)
    requires o == SmallOptions(pathOf) && c == SmallConfig(pathOf)
    ensures Accepted(c)
  {
    SmallIsGenerated(pathOf);
    SmallIsValid(pathOf);
    GeneratedIsAcceptedIff(o, c);
  }

  /** There are a configuration that Validate accepts, a registry built from it and a target that routes. */
  lemma HypothesesCanBeMet(pathOf: string -> string) returns (r: Registry)
    ensures r.cfg == SmallConfig(pathOf) && Accepted(r.cfg) && Built(r)
    ensures Routes(r.cfg, Target("", "", "")) && UsesFallback(r.cfg)
  {
    var order := SomeOrder(SmallConfig(pathOf).models.Keys);
    r := Registry(SmallConfig(pathOf), Index(SmallConfig(pathOf).models, order));
    SmallIsAccepted(SmallOptions(pathOf), r.cfg, pathOf);
    RoutesDoNotDangle(r.cfg, Target("", "", ""));
  }
}
