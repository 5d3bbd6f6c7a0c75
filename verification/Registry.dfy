/**
 The model registry: an index from identifiers to models that is filled in the arbitrary order of a
 map, and the resolution of request targets to models with ordered fallbacks.
 */
module Registry {
  import opened Common
  import opened Keys
  import opened Config

  /** `index` takes every name and alias to the name of a model. */
  datatype Registry = Registry(cfg: Config, index: map<string, string>)

  /* ---------- two resolvers ---------- */

  /** The index after the models of `order` have been entered; the last to claim an identifier has it. */
  function Index(models: map<string, Model>, order: seq<string>): map<string, string> {
    if order == [] then map[]
    else
      var n := order[|order| - 1];
      var before := Index(models, order[..|order| - 1]);
      if n in models then before + map id | id in [n] + models[n].aliases :: n else before
  }

  function Find<V>(m: map<string, V>, k: string): Option<V> { if k in m then Some(m[k]) else None }

  /** The configuration's resolver, when the models come in this order: names first, then any alias. */
  function ResolveIn(models: map<string, Model>, order: seq<string>, id: string): Option<string> {
    if id in models then Some(id) else FirstWithAlias(models, order, id)
  }

  function FirstWithAlias(models: map<string, Model>, order: seq<string>, id: string): Option<string> {
    if order == [] then None
    else if order[0] in models && id in models[order[0]].aliases then Some(order[0])
    else FirstWithAlias(models, order[1..], id)
  }

  lemma IndexStep(models: map<string, Model>, rest: seq<string>, last: string, id: string)
    ensures Find(Index(models, rest + [last]), id) == if Refers(models, last, id) then Some(last)
            else Find(Index(models, rest), id)
  {
    assert (rest + [last])[..|rest|] == rest;
    if last in models {
      assert id in [last] + models[last].aliases <==> Refers(models, last, id);
    }
  }

  /** An identifier leads to the last model that goes by it. */
  lemma {:induction false} IndexIsLast(models: map<string, Model>, order: seq<string>, id: string)
    ensures match Find(Index(models, order), id)
            case Some(n) => n in order && Refers(models, n, id)
            case None => forall n :: n in order ==> !Refers(models, n, id)
  {
    if order != [] {
      var last := order[|order| - 1];
      var rest := order[..|order| - 1];
      IndexIsLast(models, rest, id);
      IndexStep(models, rest, last, id);
      assert order == rest + [last];
    }
  }

  lemma {:induction false} ResolveInRefers(models: map<string, Model>, order: seq<string>, id: string)
    ensures FirstWithAlias(models, order, id).Some? <==>
            exists n :: n in order && n in models && id in models[n].aliases
    ensures FirstWithAlias(models, order, id).Some? ==> Refers(models, FirstWithAlias(models, order, id).value, id)
  {
    if order != [] {
      ResolveInRefers(models, order[1..], id);
      assert order == [order[0]] + order[1..];
    }
  }

  ghost predicate AlwaysAgree(models: map<string, Model>) {
    forall o, p, id :: IsOrder(models.Keys, o) && IsOrder(models.Keys, p) ==>
      Find(Index(models, o), id) == ResolveIn(models, p, id)
  }

  lemma AgreeWhenUnambiguous(models: map<string, Model>, o: seq<string>, p: seq<string>, id: string)
    requires Unambiguous(models) && IsOrder(models.Keys, o) && IsOrder(models.Keys, p)
    ensures Find(Index(models, o), id) == ResolveIn(models, p, id) == Canonical(models, id)
  {
    IndexIsLast(models, o, id);
    ResolveInRefers(models, p, id);
    if id in models {
      assert Refers(models, id, id);
    }
  }

  lemma LastDecides(models: map<string, Model>, n: string, id: string) returns (order: seq<string>)
    requires Refers(models, n, id)
    ensures IsOrder(models.Keys, order) && Find(Index(models, order), id) == Some(n)
  {
    var others := SomeOrder(models.Keys - {n});
    OrderAppend(models.Keys - {n}, others, n);
    order := others + [n];
    assert models.Keys - {n} + {n} == models.Keys;
    IndexStep(models, others, n, id);
  }

  /** The two resolvers agree on every identifier, in whatever orders the two maps are gone through, if
      and only if no identifier refers to two models. */
  lemma ResolversAgreeIff(models: map<string, Model>)
    ensures AlwaysAgree(models) <==> Unambiguous(models)
  {
    if Unambiguous(models) {
      forall o, p, id | IsOrder(models.Keys, o) && IsOrder(models.Keys, p)
        ensures Find(Index(models, o), id) == ResolveIn(models, p, id)
      {
        AgreeWhenUnambiguous(models, o, p, id);
      }
    }
    if AlwaysAgree(models) {
      forall id, m, n | Refers(models, m, id) && Refers(models, n, id)
        ensures m == n
      {
        var o := LastDecides(models, m, id);
        var p := LastDecides(models, n, id);
        assert Find(Index(models, o), id) == ResolveIn(models, o, id) == Find(Index(models, p), id);
      }
    }
  }

  /** A registry NewRegistry may build. */
  ghost predicate Built(r: Registry) {
    exists order :: IsOrder(r.cfg.models.Keys, order) && r.index == Index(r.cfg.models, order)
  }

  /** For a configuration that Validate accepts, the registry knows what the configuration means. */
  lemma BuiltIsCanonical(r: Registry, id: string)
    requires Built(r) && Unambiguous(r.cfg.models)
    ensures Find(r.index, id) == Canonical(r.cfg.models, id)
  {
    var order :| IsOrder(r.cfg.models.Keys, order) && r.index == Index(r.cfg.models, order);
    AgreeWhenUnambiguous(r.cfg.models, order, order, id);
  }

  method NewRegistry(cfg: Config) returns (r: Registry)
    ensures r.cfg == cfg && Built(r)
  {
    var index: map<string, string> := map[];
    var left := cfg.models.Keys;
    ghost var order: seq<string> := [];
    while left != {}
      invariant left <= cfg.models.Keys && IsOrder(cfg.models.Keys - left, order) && index == Index(cfg.models, order)
      decreases left
    {
      var name :| name in left;
      OrderAppend(cfg.models.Keys - left, order, name);
      assert (order + [name])[..|order|] == order;
      assert cfg.models.Keys - (left - {name}) == cfg.models.Keys - left + {name};
      order, left := order + [name], left - {name};
      index := Enter(index, name, cfg.models[name].aliases);
    }
    assert cfg.models.Keys - {} == cfg.models.Keys;
    r := Registry(cfg, index);
  }

  method Enter(index: map<string, string>, name: string, aliases: seq<string>) returns (out: map<string, string>)
    ensures out == index + map id | id in [name] + aliases :: name
  {
    out := index[name := name];
    for i := 0 to |aliases|
      invariant out == index + map id | id in [name] + aliases[..i] :: name
    {
      out := out[aliases[i] := name];
      assert [name] + aliases[..i + 1] == [name] + aliases[..i] + [aliases[i]];
    }
    assert aliases[..|aliases|] == aliases;
  }

  /* ---------- targets ---------- */

  datatype Target = Target(model: string, group: string, profile: string)

  datatype Trouble = Malformed | UnknownModel(id: string) | UnknownRoute | Unavailable

  datatype Resolved = Resolved(
    group: string, profile: string, model: string, usedDefaultGroup: bool, usedDefaultProfile: bool,
    usedFallback: bool, fallbackFrom: string, fallbacks: seq<string>)

  function UsesFallback(c: Config): bool { c.routing.modelPolicy == "" || c.routing.modelPolicy == "use_fallback" }

  /** The position of the first candidate that can be used. */
  function Scan(r: Registry, ids: seq<string>, k: nat, available: string -> bool): Result<nat, Trouble>
    decreases |ids| - k
  {
    if k >= |ids| then Err(Unavailable)
    else if ids[k] !in r.index then Err(UnknownModel(ids[k]))
    else if available(r.index[ids[k]]) then Ok(k)
    else if k == 0 && !UsesFallback(r.cfg) then Err(Unavailable)
    else Scan(r, ids, k + 1, available)
  }

  /** The models of the identifiers that are known and can be used. */
  function Usable(r: Registry, ids: seq<string>, available: string -> bool): seq<string> {
    if ids == [] then []
    else
      (if ids[0] in r.index && available(r.index[ids[0]]) then [r.index[ids[0]]] else [])
      + Usable(r, ids[1..], available)
  }

  datatype Routed = Routed(group: string, profile: string, chosen: Profile, defaultGroup: bool, defaultProfile: bool)

  /** The profile a target without an exact model names. */
  function FindProfile(c: Config, t: Target): Result<Routed, Trouble> {
    var g := if t.group == "" then c.routing.default.group else t.group;
    var p0 := if t.group == "" then c.routing.default.profile else t.profile;
    if g !in c.routing.groups then Err(UnknownRoute)
    else
      var p := if p0 == "" then c.routing.groups[g].defaultProfile else p0;
      if p == "" || p !in c.routing.groups[g].profiles then Err(UnknownRoute)
      else Ok(Routed(g, p, c.routing.groups[g].profiles[p], t.group == "", t.group == "" || p0 == ""))
  }

  /** What a usable candidate at position k gives. */
  function Pick(r: Registry, w: Routed, k: nat, available: string -> bool): Resolved
    requires k < |Candidates(w.chosen)|
  {
    var ids := Candidates(w.chosen);
    Resolved(
      w.group, w.profile, if ids[k] in r.index then r.index[ids[k]] else "", w.defaultGroup, w.defaultProfile, k > 0,
      if k == 0 then "" else if ids[0] in r.index then r.index[ids[0]] else ids[0],
      if UsesFallback(r.cfg) then Usable(r, ids[k + 1..], available) else [])
  }

  lemma {:induction false} ScanBound(r: Registry, ids: seq<string>, k: nat, available: string -> bool)
    ensures Scan(r, ids, k, available).Ok? ==> k <= Scan(r, ids, k, available).value < |ids|
    decreases |ids| - k
  {
    if k < |ids| {
      ScanBound(r, ids, k + 1, available);
    }
  }

  method ResolveTargetWithAvailability(r: Registry, t: Target, available: string -> bool)
      returns (out: Result<Resolved, Trouble>)
    ensures out == ResolveTarget(r, t, available)
  {
    if (t.model != "" && (t.group != "" || t.profile != "")) || (t.profile != "" && t.group == "") {
      return Err(Malformed);
    }
    if t.model != "" {
      if t.model !in r.index {
        return Err(UnknownModel(t.model));
      }
      var model := r.index[t.model];
      if !available(model) {
        return Err(Unavailable);
      }
      return Ok(Resolved("", "", model, false, false, false, "", []));
    }
    var group, profile, defaultGroup, defaultProfile := t.group, t.profile, false, false;
    if group == "" {
      group, profile := r.cfg.routing.default.group, r.cfg.routing.default.profile;
      defaultGroup, defaultProfile := true, true;
    }
    if group !in r.cfg.routing.groups {
      return Err(UnknownRoute);
    }
    if profile == "" {
      profile, defaultProfile := r.cfg.routing.groups[group].defaultProfile, true;
      if profile == "" {
        return Err(UnknownRoute);
      }
    }
    if profile !in r.cfg.routing.groups[group].profiles {
      return Err(UnknownRoute);
    }
    var chosen := r.cfg.routing.groups[group].profiles[profile];
    out := TryCandidates(r, Routed(group, profile, chosen, defaultGroup, defaultProfile), available);
  }

  /** The loop over the candidates. */
  method TryCandidates(r: Registry, w: Routed, available: string -> bool) returns (out: Result<Resolved, Trouble>)
    ensures out == ResolveRoute(r, w, available)
  {
    var ids := [w.chosen.model] + w.chosen.fallbacks;
    ScanBound(r, ids, 0, available);
    for k := 0 to |ids|
      invariant Scan(r, ids, 0, available) == Scan(r, ids, k, available)
    {
      if ids[k] !in r.index {
        return Err(UnknownModel(ids[k]));
      }
      var model := r.index[ids[k]];
      if !available(model) {
        if k == 0 && !UsesFallback(r.cfg) {
          return Err(Unavailable);
        }
        continue;
      }
      var fallbacks := [];
      if UsesFallback(r.cfg) {
        fallbacks := CollectUsable(r, ids[k + 1..], available);
      }
      var from := "";
      if k > 0 {
        from := ids[0];
        if from in r.index {
          from := r.index[from];
        }
      }
      return Ok(Resolved(w.group, w.profile, model, w.defaultGroup, w.defaultProfile, k > 0, from, fallbacks));
    }
    out := Err(Unavailable);
  }

  lemma {:induction false} UsableAppend(r: Registry, ids: seq<string>, id: string, available: string -> bool)
    ensures Usable(r, ids + [id], available) ==
            Usable(r, ids, available) + (if id in r.index && available(r.index[id]) then [r.index[id]] else [])
  {
    if ids != [] {
      UsableAppend(r, ids[1..], id, available);
      assert (ids + [id])[1..] == ids[1..] + [id];
    }
  }

  method CollectUsable(r: Registry, ids: seq<string>, available: string -> bool) returns (names: seq<string>)
    ensures names == Usable(r, ids, available)
  {
    names := [];
    for i := 0 to |ids|
      invariant names == Usable(r, ids[..i], available)
    {
      UsableAppend(r, ids[..i], ids[i], available);
      assert ids[..i + 1] == ids[..i] + [ids[i]];
      if ids[i] in r.index && available(r.index[ids[i]]) {
        names := names + [r.index[ids[i]]];
      }
    }
    assert ids[..|ids|] == ids;
  }

  function ResolveRoute(r: Registry, w: Routed, available: string -> bool): Result<Resolved, Trouble> {
    ScanBound(r, Candidates(w.chosen), 0, available);
    match Scan(r, Candidates(w.chosen), 0, available)
    case Err(e) => Err(e)
    case Ok(k) => Ok(Pick(r, w, k, available))
  }

  function ResolveTarget(r: Registry, t: Target, available: string -> bool): Result<Resolved, Trouble> {
    if (t.model != "" && (t.group != "" || t.profile != "")) || (t.profile != "" && t.group == "") then Err(Malformed)
    else if t.model != "" then
      if t.model !in r.index then Err(UnknownModel(t.model))
      else if !available(r.index[t.model]) then Err(Unavailable)
      else Ok(Resolved("", "", r.index[t.model], false, false, false, "", []))
    else
      match FindProfile(r.cfg, t)
      case Err(e) => Err(e)
      case Ok(w) => ResolveRoute(r, w, available)
  }
}
