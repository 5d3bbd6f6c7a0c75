/**
 The daemon's configuration: what Validate accepts, and what an identifier refers to.
 */
module Config {
  import opened Common
  import opened Keys

  datatype Backend = Backend(kind: string, command: string, transport: string)
  datatype Runtime = Runtime(contextTokens: int, threads: int, gpuLayers: int)
  datatype Model = Model(
    catalogId: string, modelPath: string, aliases: seq<string>, enabled: Option<bool>,
    backend: Backend, runtime: Runtime)
  datatype Profile = Profile(model: string, fallbacks: seq<string>)
  datatype Group = Group(defaultProfile: string, profiles: map<string, Profile>)
  datatype Route = Route(group: string, profile: string)
  datatype Routing = Routing(
    default: Route, profilePolicy: string, modelPolicy: string, groups: map<string, Group>, defaultProvider: string)
  datatype Remote = Remote(enabled: bool, apiKeyEnv: string, keyFile: string)

  /** Durations in nanoseconds. */
  datatype Config = Config(
    operatingMode: string, socketPath: string, queuePolicy: string, maxDepth: int, defaultTimeout: int,
    residentModel: string, idleCooldown: int, maxLoadedModels: int, updatePolicy: string,
    models: map<string, Model>, routing: Routing, remotes: map<string, Remote>)

  function IsEnabled(m: Model): bool { m.enabled != Some(false) }

  /* ---------- identifiers ---------- */

  predicate LowerOrDigit(c: char) { 'a' <= c <= 'z' || '0' <= c <= '9' }

  /** ^[a-z0-9][a-z0-9._-]{0,63}$ */
  predicate ValidIdentifier(s: string) {
    1 <= |s| <= 64 && LowerOrDigit(s[0]) && forall i :: 0 <= i < |s| ==> LowerOrDigit(s[i]) || s[i] in "._-"
  }

  /** What is made of an identifier: a directory of its own in the store, whatever the identifier is. */
  lemma IdentifierIsPathComponent(s: string)
    requires ValidIdentifier(s)
    ensures s != "" && '/' !in s && s != "." && s != ".." && |s| <= 64
    ensures forall c: char | c in s :: c != ' ' && !('A' <= c <= 'Z')
  {
    assert s[0] != '.';
    forall c: char | c in s
      ensures c != '/' && c != ' ' && !('A' <= c <= 'Z')
    {
      var i :| 0 <= i < |s| && s[i] == c;
    }
  }

  /** The model called n goes by this identifier. */
  predicate Refers(models: map<string, Model>, n: string, id: string) {
    n in models && (n == id || id in models[n].aliases)
  }

  ghost predicate Unambiguous(models: map<string, Model>) {
    forall id, m, n :: Refers(models, m, id) && Refers(models, n, id) ==> m == n
  }

  /** The identifiers of the models in `names`. */
  function Identifiers(models: map<string, Model>, names: set<string>): set<string>
    requires names <= models.Keys
  {
    names + set n, a | n in names && a in models[n].aliases :: a
  }

  /** No identifier is claimed twice, neither by two models nor by one. */
  ghost predicate ClaimedOnce(models: map<string, Model>, names: set<string>)
    requires names <= models.Keys
  {
    (forall m, n, id :: m in names && n in names && Refers(models, m, id) && Refers(models, n, id) ==> m == n)
    && forall n :: n in names ==> Distinct([n] + models[n].aliases)
  }

  predicate ModelOk(m: Model) {
    && (m.catalogId != "" || m.modelPath != "")
    && m.backend.kind == "process" && m.backend.command != "" && m.backend.transport == "stdio"
    && m.runtime.contextTokens > 0 && m.runtime.threads > 0 && m.runtime.gpuLayers >= -1
  }

  /** The model an identifier stands for. */
  ghost function Canonical(models: map<string, Model>, id: string): Option<string> {
    if id in models then Some(id)
    else if exists n :: Refers(models, n, id) then var n :| Refers(models, n, id); Some(n)
    else None
  }

  /** The identifiers of a profile in order of preference. */
  function Candidates(p: Profile): (ids: seq<string>) { [p.model] + p.fallbacks }

  ghost function Canonicals(models: map<string, Model>, ids: seq<string>): (names: seq<Option<string>>)
    ensures |names| == |ids| && forall i :: 0 <= i < |ids| ==> names[i] == Canonical(models, ids[i])
  {
    seq(|ids|, i requires 0 <= i < |ids| => Canonical(models, ids[i]))
  }

  /** A primary and fallbacks that exist and are all different models. */
  ghost predicate ProfileOk(models: map<string, Model>, p: Profile) {
    && (forall i :: 0 <= i < |Candidates(p)| ==> Canonical(models, Candidates(p)[i]).Some?)
    && Distinct(Canonicals(models, Candidates(p)))
    && forall i :: 0 <= i < |p.fallbacks| ==> ValidIdentifier(p.fallbacks[i])
  }

  ghost predicate GroupOk(models: map<string, Model>, g: Group) {
    && g.profiles != map[] && (g.defaultProfile == "" || g.defaultProfile in g.profiles)
    && forall p :: p in g.profiles ==> ValidIdentifier(p) && ProfileOk(models, g.profiles[p])
  }

  predicate DefaultOk(r: Routing) {
    && r.default.group in r.groups
    && var g := r.groups[r.default.group];
       var p := if r.default.profile == "" then g.defaultProfile else r.default.profile;
       p != "" && p in g.profiles
  }

  predicate GeneralOk(c: Config) {
    && c.operatingMode in {"", "user", "daemon"} && c.socketPath != ""
    && c.queuePolicy == "fifo" && c.maxDepth > 0 && c.defaultTimeout > 0
    && c.idleCooldown > 0 && c.maxLoadedModels == 1
    && c.updatePolicy in {"manual", "notify", "download", "auto"} && c.models != map[]
  }

  ghost predicate ModelsOk(models: map<string, Model>, names: set<string>)
    requires names <= models.Keys
  {
    ClaimedOnce(models, names)
    && forall n :: n in names ==>
         ValidIdentifier(n) && ModelOk(models[n]) && forall i :: 0 <= i < |models[n].aliases| ==>
           ValidIdentifier(models[n].aliases[i])
  }

  predicate PoliciesOk(r: Routing) {
    r.profilePolicy in {"", "reject"} && r.modelPolicy in {"", "reject", "use_fallback"}
      && r.defaultProvider in {"", "local"}
  }

  predicate RemoteOk(r: Remote) { r.enabled ==> r.apiKeyEnv != "" || r.keyFile != "" }

  /** What Validate accepts. */
  ghost predicate Accepted(c: Config) {
    && GeneralOk(c) && ModelsOk(c.models, c.models.Keys)
    && (c.residentModel != "" ==> Canonical(c.models, c.residentModel).Some?)
    && PoliciesOk(c.routing) && DefaultOk(c.routing)
    && (forall g :: g in c.routing.groups ==> ValidIdentifier(g) && GroupOk(c.models, c.routing.groups[g]))
    && (forall r :: r in c.remotes ==> RemoteOk(c.remotes[r]))
  }

  lemma AcceptedIsUnambiguous(c: Config)
    requires Accepted(c)
    ensures Unambiguous(c.models)
  {
  }

  /* ---------- the code ---------- */

  datatype Problem =
    | Unsupported(field: string) | BadIdentifier(value: string) | ClaimedTwice(identifier: string)
    | BadModel(name: string, field: string) | Unknown(identifier: string)
    | RepeatsPrimary(identifier: string) | RepeatsFallback(identifier: string)
    | NoProfile(group: string) | BadDefault(group: string) | BadRemote(name: string)

  /** Models are looked at in an arbitrary order when no model has the identifier as its name. */
  method ResolveModelReference(models: map<string, Model>, id: string) returns (found: Option<string>)
    ensures found.Some? ==> Refers(models, found.value, id)
    ensures id in models ==> found == Some(id)
    ensures found.None? ==> forall n :: !Refers(models, n, id)
    ensures found.Some? <==> Canonical(models, id).Some?
    ensures Unambiguous(models) ==> found == Canonical(models, id)
  {
    if id in models {
      return Some(id);
    }
    var left := models.Keys;
    while left != {}
      invariant left <= models.Keys && forall n :: Refers(models, n, id) ==> n in left
      decreases left
    {
      var name :| name in left;
      left := left - {name};
      var aliases := models[name].aliases;
      for i := 0 to |aliases|
        invariant id !in aliases[..i]
      {
        if aliases[i] == id {
          assert Refers(models, name, id);
          return Some(name);
        }
      }
      assert aliases[..|aliases|] == aliases;
    }
    found := None;
  }

  method ValidateIdentifier(errs: seq<Problem>, value: string) returns (out: seq<Problem>)
    ensures out == [] <==> errs == [] && ValidIdentifier(value)
  {
    out := if ValidIdentifier(value) then errs else errs + [BadIdentifier(value)];
  }

  method ClaimIdentifier(errs: seq<Problem>, claimed: map<string, string>, identifier: string, owner: string)
    returns (out: seq<Problem>, now: map<string, string>)
    ensures out == [] <==> errs == [] && identifier !in claimed
    ensures now.Keys == claimed.Keys + {identifier}
  {
    if identifier in claimed {
      return errs + [ClaimedTwice(identifier)], claimed;
    }
    out, now := errs, claimed[identifier := owner];
  }

  method ValidateModel(errs: seq<Problem>, name: string, m: Model) returns (out: seq<Problem>)
    ensures out == [] <==> errs == [] && ModelOk(m)
  {
    out := errs;
    if m.catalogId == "" && m.modelPath == "" {
      out := out + [BadModel(name, "catalog_id")];
    }
    if m.backend.kind != "process" {
      out := out + [BadModel(name, "backend.type")];
    }
    if m.backend.command == "" {
      out := out + [BadModel(name, "backend.command")];
    }
    if m.backend.transport != "stdio" {
      out := out + [BadModel(name, "backend.transport")];
    }
    if m.runtime.contextTokens <= 0 {
      out := out + [BadModel(name, "runtime.context_tokens")];
    }
    if m.runtime.threads <= 0 {
      out := out + [BadModel(name, "runtime.threads")];
    }
    if m.runtime.gpuLayers < -1 {
      out := out + [BadModel(name, "runtime.gpu_layers")];
    }
  }

  /** Identifiers that can be claimed one after the other. */
  predicate Claimable(claimed: set<string>, ids: seq<string>) {
    Distinct(ids) && forall id :: id in ids ==> id !in claimed
  }

  /** The next model claims its name, then its aliases. */
  lemma ClaimNext(models: map<string, Model>, done: set<string>, x: string)
    requires done <= models.Keys && x in models && x !in done
    ensures ClaimedOnce(models, done + {x}) <==>
            ClaimedOnce(models, done) && Claimable(Identifiers(models, done), [x] + models[x].aliases)
  {
    var mine := [x] + models[x].aliases;
    forall id
      ensures id in mine <==> Refers(models, x, id)
      ensures id in Identifiers(models, done) <==> exists n :: n in done && Refers(models, n, id)
    {
    }
  }

  method ClaimAll(errs: seq<Problem>, claimed: map<string, string>, owner: string, ids: seq<string>)
    returns (out: seq<Problem>, now: map<string, string>)
    ensures now.Keys == claimed.Keys + set id | id in ids
    ensures out == [] <==> errs == [] && Claimable(claimed.Keys, ids) && forall id :: id in ids ==> ValidIdentifier(id)
  {
    out, now := errs, claimed;
    for i := 0 to |ids|
      invariant now.Keys == claimed.Keys + set id | id in ids[..i]
      invariant out == [] <==>
                errs == [] && Claimable(claimed.Keys, ids[..i]) && forall id :: id in ids[..i] ==> ValidIdentifier(id)
    {
      assert ids[..i + 1] == ids[..i] + [ids[i]];
      DistinctAppend(ids[..i], ids[i]);
      out := ValidateIdentifier(out, ids[i]);
      out, now := ClaimIdentifier(out, now, ids[i], owner);
    }
    assert ids[..|ids|] == ids;
  }

  lemma ModelsOkAppend(models: map<string, Model>, done: set<string>, x: string)
    requires done <= models.Keys && x in models && x !in done
    ensures ModelsOk(models, done + {x}) <==>
            ModelsOk(models, done) && ModelOk(models[x])
              && Claimable(Identifiers(models, done), [x] + models[x].aliases)
            && forall id :: id in [x] + models[x].aliases ==> ValidIdentifier(id)
  {
    ClaimNext(models, done, x);
    assert ([x] + models[x].aliases)[0] == x;
  }

  predicate SoFar(order: seq<string>, n: nat, done: set<string>) {
    forall j :: 0 <= j < |order| ==> (order[j] in done <==> j < n)
  }

  lemma AllDone(keys: set<string>, order: seq<string>, done: set<string>)
    requires IsOrder(keys, order) && SoFar(order, |order|, done) && done <= keys
    ensures done == keys
  {
  }

  method ValidateModels(errs: seq<Problem>, models: map<string, Model>) returns (out: seq<Problem>)
    ensures out == [] <==> errs == [] && ModelsOk(models, models.Keys)
  {
    out := errs;
    var claimed: map<string, string> := map[];
    var order := SortedKeys(models.Keys);
    ghost var done := {};
    for i := 0 to |order|
      invariant done <= models.Keys && SoFar(order, i, done)
      invariant claimed.Keys == Identifiers(models, done)
      invariant out == [] <==> errs == [] && ModelsOk(models, done)
    {
      out, claimed := ValidateNext(out, claimed, models, done, order[i]);
      done := done + {order[i]};
    }
    AllDone(models.Keys, order, done);
  }

  /** The name and the aliases are each validated and claimed, then the model's other fields are checked. */
  method ValidateNext(errs: seq<Problem>, claimed: map<string, string>, models: map<string, Model>,
      ghost done: set<string>, x: string)
    returns (out: seq<Problem>, now: map<string, string>)
    requires done <= models.Keys && x in models && x !in done && claimed.Keys == Identifiers(models, done)
    requires errs == [] ==> ModelsOk(models, done)
    ensures now.Keys == Identifiers(models, done + {x})
    ensures ModelsOk(models, done + {x}) ==> ModelsOk(models, done)
    ensures out == [] <==> errs == [] && ModelsOk(models, done + {x})
  {
    ModelsOkAppend(models, done, x);
    out, now := ClaimAll(errs, claimed, x, [x] + models[x].aliases);
    out := ValidateModel(out, x, models[x]);
    assert forall id :: id in [x] + models[x].aliases <==> id == x || id in models[x].aliases;
  }

  /** As far as they go, the candidates of a profile are in order. */
  ghost predicate FirstOk(models: map<string, Model>, ids: seq<string>) {
    && (forall i :: 0 <= i < |ids| ==> Canonical(models, ids[i]).Some?)
    && Distinct(Canonicals(models, ids))
    && forall i :: 1 <= i < |ids| ==> ValidIdentifier(ids[i])
  }

  lemma FirstOkAppend(models: map<string, Model>, ids: seq<string>, x: string)
    requires ids != []
    ensures FirstOk(models, ids + [x]) <==>
            FirstOk(models, ids) && Canonical(models, x).Some? && Canonical(models, x) !in Canonicals(models, ids)
              && ValidIdentifier(x)
  {
    assert Canonicals(models, ids + [x]) == Canonicals(models, ids) + [Canonical(models, x)];
    DistinctAppend(Canonicals(models, ids), Canonical(models, x));
    assert (ids + [x])[|ids|] == x;
    assert forall i :: 0 <= i < |ids| ==> (ids + [x])[i] == ids[i];
  }

  lemma AllOk(models: map<string, Model>, p: Profile)
    ensures FirstOk(models, Candidates(p)) <==> ProfileOk(models, p)
  {
    assert forall i :: 0 <= i < |p.fallbacks| ==> Candidates(p)[i + 1] == p.fallbacks[i];
  }

  method ValidateProfile(errs: seq<Problem>, models: map<string, Model>, p: Profile) returns (out: seq<Problem>)
    ensures out == [] ==> errs == []
    ensures Unambiguous(models) ==> (out == [] <==> errs == [] && ProfileOk(models, p))
  {
    out := errs;
    var primary := ResolveModelReference(models, p.model);
    if primary.None? {
      out := out + [Unknown(p.model)];
    }
    var seen: set<string> := {};
    ghost var ids := [p.model];
    assert Canonicals(models, ids) == [Canonical(models, p.model)] && ids[0] == p.model;
    for i := 0 to |p.fallbacks|
      invariant ids == [p.model] + p.fallbacks[..i]
      invariant out == [] ==> errs == []
      invariant Unambiguous(models) ==> (out == [] <==> errs == [] && FirstOk(models, ids))
      invariant Unambiguous(models) && out == [] ==>
        primary.Some? && forall n :: Some(n) in Canonicals(models, ids) <==> n == primary.value || n in seen
    {
      var fallback := p.fallbacks[i];
      FirstOkAppend(models, ids, fallback);
      assert Canonicals(models, ids + [fallback]) == Canonicals(models, ids) + [Canonical(models, fallback)];
      ids := ids + [fallback];
      out, seen := ValidateFallback(out, models, primary, seen, fallback);
    }
    AllOk(models, p);
    assert ids == Candidates(p);
  }

  /** One turn of the loop over the fallbacks. */
  method ValidateFallback(errs: seq<Problem>, models: map<string, Model>, primary: Option<string>, seen: set<string>,
      fallback: string)
    returns (out: seq<Problem>, now: set<string>)
    ensures out == [] ==> errs == []
    ensures Unambiguous(models) && primary.Some? ==>
      (out == [] <==> errs == [] && Canonical(models, fallback).Some? && Canonical(models, fallback) != primary
                      && Canonical(models, fallback).value !in seen && ValidIdentifier(fallback))
    ensures Unambiguous(models) && Canonical(models, fallback).Some? ==>
            now == seen + {Canonical(models, fallback).value}
  {
    out, now := errs, seen;
    var resolved := ResolveModelReference(models, fallback);
    if resolved.None? {
      return out + [Unknown(fallback)], now;
    }
    if resolved == primary {
      out := out + [RepeatsPrimary(fallback)];
    }
    if resolved.value in seen {
      out := out + [RepeatsFallback(fallback)];
    }
    now := seen + {resolved.value};
    out := ValidateIdentifier(out, fallback);
  }

  method ValidateGroup(errs: seq<Problem>, models: map<string, Model>, name: string, g: Group)
      returns (out: seq<Problem>)
    ensures out == [] ==> errs == []
    ensures Unambiguous(models) ==> (out == [] <==> errs == [] && ValidIdentifier(name) && GroupOk(models, g))
  {
    out := ValidateIdentifier(errs, name);
    if g.profiles == map[] {
      out := out + [NoProfile(name)];
    }
    if g.defaultProfile != "" && g.defaultProfile !in g.profiles {
      out := out + [BadDefault(name)];
    }
    ghost var before := out;
    var order := SortedKeys(g.profiles.Keys);
    for i := 0 to |order|
      invariant out == [] ==> before == []
      invariant Unambiguous(models) ==>
        (out == [] <==> before == [] && forall j :: 0 <= j < i ==>
          ValidIdentifier(order[j]) && ProfileOk(models, g.profiles[order[j]]))
    {
      out := ValidateIdentifier(out, order[i]);
      out := ValidateProfile(out, models, g.profiles[order[i]]);
    }
    assert forall p :: p in g.profiles <==> p in order;
  }

  method ValidateGroups(errs: seq<Problem>, models: map<string, Model>, groups: map<string, Group>)
      returns (out: seq<Problem>)
    ensures out == [] ==> errs == []
    ensures Unambiguous(models) ==>
      (out == [] <==> errs == [] && forall g :: g in groups ==> ValidIdentifier(g) && GroupOk(models, groups[g]))
  {
    out := errs;
    var order := SortedKeys(groups.Keys);
    for i := 0 to |order|
      invariant out == [] ==> errs == []
      invariant Unambiguous(models) ==>
        (out == [] <==> errs == [] && forall j :: 0 <= j < i ==>
          ValidIdentifier(order[j]) && GroupOk(models, groups[order[j]]))
    {
      out := ValidateGroup(out, models, order[i], groups[order[i]]);
    }
    assert forall g :: g in groups <==> g in order;
  }

  method ValidateDefault(errs: seq<Problem>, r: Routing) returns (out: seq<Problem>)
    ensures out == [] <==> errs == [] && DefaultOk(r)
  {
    out := errs;
    if r.default.group !in r.groups {
      out := out + [Unknown(r.default.group)];
    } else {
      var g := r.groups[r.default.group];
      var profile := r.default.profile;
      if profile == "" {
        profile := g.defaultProfile;
      }
      if profile == "" || profile !in g.profiles {
        out := out + [BadDefault(r.default.group)];
      }
    }
  }

  method ValidateRemotes(errs: seq<Problem>, remotes: map<string, Remote>) returns (out: seq<Problem>)
    ensures out == [] <==> errs == [] && forall r :: r in remotes ==> RemoteOk(remotes[r])
  {
    out := errs;
    var left := remotes.Keys;
    while left != {}
      invariant left <= remotes.Keys
      invariant out == [] <==> errs == [] && forall r :: r in remotes && r !in left ==> RemoteOk(remotes[r])
      decreases left
    {
      var name :| name in left;
      left := left - {name};
      var remote := remotes[name];
      if remote.enabled && remote.apiKeyEnv == "" && remote.keyFile == "" {
        out := out + [BadRemote(name)];
      }
    }
  }

  method ValidateGeneral(c: Config) returns (out: seq<Problem>)
    ensures out == [] <==> GeneralOk(c)
  {
    out := [];
    if c.operatingMode !in {"", "user", "daemon"} {
      out := out + [Unsupported("operating_mode")];
    }
    if c.socketPath == "" {
      out := out + [Unsupported("server.socket_path")];
    }
    if c.queuePolicy != "fifo" {
      out := out + [Unsupported("queue.policy")];
    }
    if c.maxDepth <= 0 {
      out := out + [Unsupported("queue.max_depth")];
    }
    if c.defaultTimeout <= 0 {
      out := out + [Unsupported("queue.default_timeout")];
    }
    if c.idleCooldown <= 0 {
      out := out + [Unsupported("model_lifecycle.idle_cooldown")];
    }
    if c.maxLoadedModels != 1 {
      out := out + [Unsupported("model_lifecycle.max_loaded_models")];
    }
    if c.updatePolicy !in {"manual", "notify", "download", "auto"} {
      out := out + [Unsupported("updates.default_policy")];
    }
    if c.models == map[] {
      out := out + [Unsupported("models")];
    }
  }

  method ValidatePolicies(errs: seq<Problem>, r: Routing) returns (out: seq<Problem>)
    ensures out == [] <==> errs == [] && PoliciesOk(r)
  {
    out := errs;
    var profilePolicy := if r.profilePolicy == "" then "reject" else r.profilePolicy;
    if profilePolicy != "reject" {
      out := out + [Unsupported("routing.unavailable_profile_policy")];
    }
    var modelPolicy := if r.modelPolicy == "" then "use_fallback" else r.modelPolicy;
    if modelPolicy !in {"reject", "use_fallback"} {
      out := out + [Unsupported("routing.unavailable_model_policy")];
    }
    if r.defaultProvider !in {"", "local"} {
      out := out + [Unsupported("routing.default_provider")];
    }
  }

  /** Validate reports no problem exactly for the configurations the rest of the program relies on. */
  method Validate(c: Config) returns (errs: seq<Problem>)
    ensures errs == [] <==> Accepted(c)
  {
    errs := ValidateGeneral(c);
    errs := ValidateModels(errs, c.models);
    if c.residentModel != "" {
      var resident := ResolveModelReference(c.models, c.residentModel);
      if resident.None? {
        errs := errs + [Unknown(c.residentModel)];
      }
    }
    errs := ValidatePolicies(errs, c.routing);
    errs := ValidateGroups(errs, c.models, c.routing.groups);
    errs := ValidateDefault(errs, c.routing);
    errs := ValidateRemotes(errs, c.remotes);
  }
}
