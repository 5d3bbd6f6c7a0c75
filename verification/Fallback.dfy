/**
 Ordered fallback from end to end: the registry resolves a target to a model and the fallbacks that
 may follow it, and the runner provider starts the first of them that comes up.
 */
module Fallback {
  import opened Common
  import opened Keys
  import opened Config
  import opened Registry

  function Filter(names: seq<string>, keep: string -> bool): (kept: seq<string>) {
    if names == [] then [] else (if keep(names[0]) then [names[0]] else []) + Filter(names[1..], keep)
  }

  lemma {:induction false} FilterElements(names: seq<string>, keep: string -> bool)
    ensures forall n :: n in Filter(names, keep) <==> n in names && keep(n)
    ensures Distinct(names) ==> Distinct(Filter(names, keep))
  {
    if names != [] {
      FilterElements(names[1..], keep);
      assert names == [names[0]] + names[1..];
      if Distinct(names) {
        assert forall i :: 0 <= i < |names[1..]| ==> names[1..][i] == names[i + 1];
        assert names[0] !in Filter(names[1..], keep);
      }
    }
  }

  /** What the candidates of a profile are really called. */
  ghost function Names(models: map<string, Model>, ids: seq<string>): (names: seq<string>)
    requires forall i :: 0 <= i < |ids| ==> Canonical(models, ids[i]).Some?
    ensures |names| == |ids| && forall i :: 0 <= i < |ids| ==> Some(names[i]) == Canonical(models, ids[i])
  {
    seq(|ids|, i requires 0 <= i < |ids| => Canonical(models, ids[i]).value)
  }

  /* ---------- the registry's part ---------- */

  /** The registry knows these identifiers under these names. */
  predicate Means(r: Registry, ids: seq<string>, names: seq<string>) {
    |ids| == |names| && forall i :: 0 <= i < |ids| ==> ids[i] in r.index && r.index[ids[i]] == names[i]
  }

  lemma NamesAreMeant(r: Registry, ids: seq<string>)
    requires Built(r) && Unambiguous(r.cfg.models)
    requires forall i :: 0 <= i < |ids| ==> Canonical(r.cfg.models, ids[i]).Some?
    ensures Means(r, ids, Names(r.cfg.models, ids))
  {
    forall i | 0 <= i < |ids|
      ensures ids[i] in r.index && r.index[ids[i]] == Names(r.cfg.models, ids)[i]
    {
      BuiltIsCanonical(r, ids[i]);
    }
  }

  lemma {:induction false} UsableIsFilter(r: Registry, ids: seq<string>, names: seq<string>, available: string -> bool)
    requires Means(r, ids, names)
    ensures Usable(r, ids, available) == Filter(names, available)
  {
    if ids != [] {
      UsableIsFilter(r, ids[1..], names[1..], available);
    }
  }

  /** The first of the names from k on that can be used, if any. */
  predicate IsFirstFrom(names: seq<string>, k: nat, i: nat, keep: string -> bool) {
    k <= i < |names| && keep(names[i]) && forall j :: k <= j < i ==> !keep(names[j])
  }

  predicate NoneFrom(names: seq<string>, k: nat, keep: string -> bool) {
    forall j :: k <= j < |names| ==> !keep(names[j])
  }

  /** Under `use_fallback` the scan stops at the first usable candidate. */
  lemma {:induction false} ScanFinds(r: Registry, ids: seq<string>, names: seq<string>, k: nat,
      available: string -> bool)
    requires Means(r, ids, names) && (UsesFallback(r.cfg) || k > 0)
    ensures match Scan(r, ids, k, available)
            case Ok(i) => IsFirstFrom(names, k, i, available)
            case Err(e) => e == Unavailable && NoneFrom(names, k, available)
    decreases |ids| - k
  {
    if k < |ids| && !available(names[k]) {
      ScanFinds(r, ids, names, k + 1, available);
    }
  }

  lemma {:induction false} FilterFirst(names: seq<string>, i: nat, available: string -> bool)
    requires IsFirstFrom(names, 0, i, available)
    ensures Filter(names, available) == [names[i]] + Filter(names[i + 1..], available)
  {
    if i > 0 {
      assert !available(names[0]);
      assert forall j :: 0 <= j < |names| - 1 ==> names[1..][j] == names[j + 1];
      FilterFirst(names[1..], i - 1, available);
      assert names[1..][i..] == names[i + 1..];
    }
  }

  /** The group and the profile a target stands for, straight from the configuration: what is named counts,
      and the defaults stand in for what is not. */
  function MeantGroup(c: Config, t: Target): string { if t.group != "" then t.group else c.routing.default.group }

  function MeantProfile(c: Config, t: Target): string
    requires MeantGroup(c, t) in c.routing.groups
  {
    if t.group != "" && t.profile != "" then t.profile
    else if t.group != "" then c.routing.groups[t.group].defaultProfile
    else if c.routing.default.profile != "" then c.routing.default.profile
    else c.routing.groups[c.routing.default.group].defaultProfile
  }

  /** The target names no exact model and leads to a configured profile. */
  predicate Routes(c: Config, t: Target) {
    && t.model == "" && (t.group == "" ==> t.profile == "") && MeantGroup(c, t) in c.routing.groups
    && MeantProfile(c, t) != "" && MeantProfile(c, t) in c.routing.groups[MeantGroup(c, t)].profiles
  }

  /** The candidates of the profile a target leads to. */
  function RouteIds(c: Config, t: Target): seq<string>
    requires Routes(c, t)
  {
    Candidates(c.routing.groups[MeantGroup(c, t)].profiles[MeantProfile(c, t)])
  }

  /** Case by case: with group and profile named it is that profile, with only a group the group's default,
      with neither the default route, or the default of its group. */
  lemma MeantProfiles(c: Config, t: Target)
    requires Routes(c, t)
    ensures t.group != "" && t.profile != "" ==>
              RouteIds(c, t) == Candidates(c.routing.groups[t.group].profiles[t.profile])
    ensures t.group != "" && t.profile == "" ==>
              var g := c.routing.groups[t.group]; RouteIds(c, t) == Candidates(g.profiles[g.defaultProfile])
    ensures t.group == "" && c.routing.default.profile != "" ==>
              var d := c.routing.default; RouteIds(c, t) == Candidates(c.routing.groups[d.group].profiles[d.profile])
    ensures t.group == "" && c.routing.default.profile == "" ==>
              var g := c.routing.groups[c.routing.default.group];
              RouteIds(c, t) == Candidates(g.profiles[g.defaultProfile])
  {
  }

  /** The search through the configuration finds what is meant and nothing else. */
  lemma FindsMeant(c: Config, t: Target)
    requires t.model == "" && (t.group == "" ==> t.profile == "")
    ensures Routes(c, t) <==> FindProfile(c, t).Ok?
    ensures Routes(c, t) ==>
              FindProfile(c, t) == Ok(Routed(MeantGroup(c, t), MeantProfile(c, t),
                                             c.routing.groups[MeantGroup(c, t)].profiles[MeantProfile(c, t)],
                                             t.group == "", t.group == "" || t.profile == ""))
  {
  }

  /** An accepted configuration has no route that leads nowhere: a target is known exactly when it names
      a configured group with a configured profile or leaves out what has a default. */
  lemma RoutesDoNotDangle(c: Config, t: Target)
    requires Accepted(c) && t.model == "" && (t.group == "" ==> t.profile == "")
    ensures Routes(c, t) <==>
            t.group == "" || (t.group in c.routing.groups
              && if t.profile == "" then c.routing.groups[t.group].defaultProfile != ""
                 else t.profile in c.routing.groups[t.group].profiles)
    ensures Routes(c, t) ==> ProfileOk(c.models, c.routing.groups[MeantGroup(c, t)].profiles[MeantProfile(c, t)])
  {
    assert GroupOk(c.models, c.routing.groups[c.routing.default.group]);
    if t.group in c.routing.groups {
      assert GroupOk(c.models, c.routing.groups[t.group]);
    }
  }

  /** What a resolved route says about itself. */
  predicate Reported(c: Config, t: Target, out: Resolved)
    requires Routes(c, t)
  {
    && out.group == MeantGroup(c, t) && out.profile == MeantProfile(c, t)
    && (out.usedDefaultGroup <==> t.group == "") && (out.usedDefaultProfile <==> t.group == "" || t.profile == "")
  }

  /** Unless it says `reject`, an accepted configuration uses fallbacks. */
  lemma FallbackPolicy(c: Config)
    requires Accepted(c)
    ensures UsesFallback(c) <==> c.routing.modelPolicy != "reject"
  {
  }

  ghost function RouteNames(c: Config, t: Target): (names: seq<string>)
    requires Accepted(c) && Routes(c, t)
    ensures |names| == |RouteIds(c, t)| > 0
  {
    RoutesDoNotDangle(c, t);
    Names(c.models, RouteIds(c, t))
  }

  lemma RouteNamesMeant(r: Registry, t: Target)
    requires Accepted(r.cfg) && Built(r) && Routes(r.cfg, t)
    ensures Means(r, RouteIds(r.cfg, t), RouteNames(r.cfg, t)) && Distinct(RouteNames(r.cfg, t))
  {
    RoutesDoNotDangle(r.cfg, t);
    var ids := RouteIds(r.cfg, t);
    var names := RouteNames(r.cfg, t);
    NamesAreMeant(r, ids);
    forall i, j | 0 <= i < j < |names|
      ensures names[i] != names[j]
    {
      assert Canonicals(r.cfg.models, ids)[i] != Canonicals(r.cfg.models, ids)[j];
    }
  }

  lemma PickIsUsable(r: Registry, w: Routed, names: seq<string>, k: nat, available: string -> bool)
    requires Means(r, Candidates(w.chosen), names) && UsesFallback(r.cfg) && IsFirstFrom(names, 0, k, available)
    ensures var x := Pick(r, w, k, available);
            && [x.model] + x.fallbacks == Filter(names, available)
            && (if x.usedFallback then !available(names[0]) && x.fallbackFrom == names[0]
               else x.model == names[0] && x.fallbackFrom == "")
  {
    FilterFirst(names, k, available);
    UsableIsFilter(r, Candidates(w.chosen)[k + 1..], names[k + 1..], available);
  }

  /** What resolving a route gives when the candidates are called `names`. */
  lemma RouteScan(r: Registry, w: Routed, names: seq<string>, available: string -> bool)
    requires Means(r, Candidates(w.chosen), names) && UsesFallback(r.cfg)
    ensures match ResolveRoute(r, w, available)
            case Ok(x) =>
              && [x.model] + x.fallbacks == Filter(names, available)
              && (if x.usedFallback then !available(names[0]) && x.fallbackFrom == names[0]
                 else x.model == names[0] && x.fallbackFrom == "")
            case Err(e) => e == Unavailable && NoneFrom(names, 0, available)
  {
    ScanBound(r, Candidates(w.chosen), 0, available);
    ScanFinds(r, Candidates(w.chosen), names, 0, available);
    if Scan(r, Candidates(w.chosen), 0, available).Ok? {
      PickIsUsable(r, w, names, Scan(r, Candidates(w.chosen), 0, available).value, available);
    }
  }

  function MeantRoute(c: Config, t: Target): Routed
    requires Routes(c, t)
  {
    Routed(MeantGroup(c, t), MeantProfile(c, t), c.routing.groups[MeantGroup(c, t)].profiles[MeantProfile(c, t)],
           t.group == "", t.group == "" || t.profile == "")
  }

  lemma RouteIsResolved(r: Registry, t: Target, available: string -> bool)
    requires Routes(r.cfg, t)
    ensures ResolveTarget(r, t, available) == ResolveRoute(r, MeantRoute(r.cfg, t), available)
    ensures ResolveTarget(r, t, available).Ok? ==> Reported(r.cfg, t, ResolveTarget(r, t, available).value)
  {
    FindsMeant(r.cfg, t);
    ScanBound(r, RouteIds(r.cfg, t), 0, available);
  }

  /** Under `use_fallback` the model and its fallbacks are exactly the usable candidates, in profile
      order and each once; resolution fails only when none is usable. */
  lemma FallbackOutcome(r: Registry, t: Target, available: string -> bool)
    requires Accepted(r.cfg) && Built(r) && Routes(r.cfg, t) && UsesFallback(r.cfg)
    ensures var names := RouteNames(r.cfg, t);
            match ResolveTarget(r, t, available)
            case Ok(out) =>
              && [out.model] + out.fallbacks == Filter(names, available) && Distinct([out.model] + out.fallbacks)
              && Reported(r.cfg, t, out) && (out.usedFallback <==> out.model != names[0])
                 && out.fallbackFrom == (if out.usedFallback then names[0] else "")
            case Err(e) => e == Unavailable && NoneFrom(names, 0, available)
  {
    RouteNamesMeant(r, t);
    RouteIsResolved(r, t, available);
    var names := RouteNames(r.cfg, t);
    RouteScan(r, MeantRoute(r.cfg, t), names, available);
    FilterElements(names, available);
    assert forall n :: n in Filter(names, available) ==> available(n);
    if ResolveTarget(r, t, available).Ok? {
      var out := ResolveTarget(r, t, available).value;
      assert out.model in [out.model] + out.fallbacks;
    }
  }

  /** Under `reject` only the primary is considered. */
  lemma RejectOutcome(r: Registry, t: Target, available: string -> bool)
    requires Accepted(r.cfg) && Built(r) && Routes(r.cfg, t) && !UsesFallback(r.cfg)
    ensures var names := RouteNames(r.cfg, t);
            match ResolveTarget(r, t, available)
            case Ok(out) =>
              && available(names[0]) && out.model == names[0] && out.fallbacks == []
              && !out.usedFallback && out.fallbackFrom == "" && Reported(r.cfg, t, out)
            case Err(e) => e == Unavailable && !available(names[0])
  {
    RouteNamesMeant(r, t);
    RouteIsResolved(r, t, available);
  }

  /** An exact target, by name or by alias. */
  lemma ExactOutcome(r: Registry, t: Target, available: string -> bool)
    requires Unambiguous(r.cfg.models) && Built(r) && t.model != "" && t.group == "" && t.profile == ""
    ensures match ResolveTarget(r, t, available)
            case Ok(out) =>
              && Refers(r.cfg.models, out.model, t.model) && available(out.model)
              && out.fallbacks == [] && !out.usedFallback && out.fallbackFrom == ""
              && out.group == "" && out.profile == "" && !out.usedDefaultGroup && !out.usedDefaultProfile
            case Err(e) => if e == Unavailable then exists n :: Refers(r.cfg.models, n, t.model) && !available(n)
                           else e == UnknownModel(t.model) && forall n :: !Refers(r.cfg.models, n, t.model)
  {
    BuiltIsCanonical(r, t.model);
  }

  /* ---------- the provider's part ---------- */

  datatype Request = Request(model: string, fallback: bool, fallbackFrom: string, fallbacks: seq<string>)

  /** The request the worker hands to the provider. */
  function ToRequest(out: Resolved): Request { Request(out.model, out.usedFallback, out.fallbackFrom, out.fallbacks) }

  /** The position of the first model that comes up, from k on. */
  function StartAt(r: Registry, names: seq<string>, k: nat, starts: string -> bool): Result<nat, Trouble>
    decreases |names| - k
  {
    if k >= |names| then Err(Unavailable)
    else if names[k] !in r.index then Err(UnknownModel(names[k]))
    else if starts(r.index[names[k]]) then Ok(k)
    else StartAt(r, names, k + 1, starts)
  }

  function List(q: Request): seq<string> { [q.model] + q.fallbacks }

  /** The request as it is run when the model at position k came up. */
  function Started(q: Request, k: nat, name: string): Request {
    if k == 0 then q
    else q.(model := name, fallback := true, fallbackFrom := if q.fallbackFrom == "" then q.model else q.fallbackFrom)
  }

  function Start(r: Registry, q: Request, starts: string -> bool): Result<Request, Trouble> {
    match StartAt(r, List(q), 0, starts)
    case Err(e) => Err(e)
    case Ok(k) => Ok(Started(q, k, if k < |List(q)| && List(q)[k] in r.index then r.index[List(q)[k]] else ""))
  }

  lemma {:induction false} StartsFirst(r: Registry, names: seq<string>, k: nat, starts: string -> bool)
    requires Means(r, names, names)
    ensures match StartAt(r, names, k, starts)
            case Ok(i) => IsFirstFrom(names, k, i, starts)
            case Err(e) => e == Unavailable && NoneFrom(names, k, starts)
    decreases |names| - k
  {
    if k < |names| && !starts(names[k]) {
      StartsFirst(r, names, k + 1, starts);
    }
  }

  /** Models go by their own names. */
  lemma NamesMeanThemselves(r: Registry, ids: seq<string>, names: seq<string>, n: string)
    requires Built(r) && Unambiguous(r.cfg.models) && Means(r, ids, names) && n in names
    ensures n in r.cfg.models && n in r.index && r.index[n] == n
  {
    var i :| 0 <= i < |names| && names[i] == n;
    BuiltIsCanonical(r, ids[i]);
    BuiltIsCanonical(r, n);
  }

  lemma NoModelIsNameless(c: Config, n: string)
    requires Accepted(c) && n in c.models
    ensures n != ""
  {
  }

  /** Usable for the registry and able to start. */
  function Both(available: string -> bool, starts: string -> bool): string -> bool { n => available(n) && starts(n) }

  lemma {:induction false} FirstOfFilter(names: seq<string>, available: string -> bool, starts: string -> bool,
      j: nat) returns (i: nat)
    requires IsFirstFrom(Filter(names, available), 0, j, starts)
    ensures IsFirstFrom(names, 0, i, Both(available, starts)) && names[i] == Filter(names, available)[j]
  {
    assert forall m :: 0 <= m < |names| - 1 ==> names[1..][m] == names[m + 1];
    if available(names[0]) && j == 0 {
      i := 0;
    } else {
      var first := if available(names[0]) then 1 else 0;
      assert available(names[0]) ==> Filter(names, available)[0] == names[0] && !starts(names[0]);
      assert forall m :: 0 <= m < |Filter(names[1..], available)| ==>
             Filter(names, available)[m + first] == Filter(names[1..], available)[m];
      i := FirstOfFilter(names[1..], available, starts, j - first);
      i := i + 1;
      assert forall m :: 1 <= m < i ==> names[m] == names[1..][m - 1];
    }
  }

  /** A target resolved and then started. */
  function EndToEnd(r: Registry, t: Target, available: string -> bool, starts: string -> bool)
    : Result<Request, Trouble>
  {
    match ResolveTarget(r, t, available)
    case Err(e) => Err(e)
    case Ok(out) => Start(r, ToRequest(out), starts)
  }

  /** Behind the first of the kept names there is another name than the first of all. */
  lemma OtherThanFirst(names: seq<string>, available: string -> bool, j: nat)
    requires Distinct(names) && names != [] && j < |Filter(names, available)|
    ensures j > 0 || !available(names[0]) ==> Filter(names, available)[j] != names[0]
  {
    FilterElements(names, available);
    var kept := Filter(names, available);
    assert kept[j] in kept;
    if j > 0 && available(names[0]) {
      assert kept[0] == names[0] && kept[0] != kept[j];
    }
  }

  /** The fallback flag, given what the registry set and the position the provider got to. */
  lemma FlagIsRight(names: seq<string>, q: Request, j: nat, available: string -> bool)
    requires List(q) == Filter(names, available) && Distinct(names) && names != [] && names[0] != "" && j < |List(q)|
    requires if q.fallback then !available(names[0]) && q.fallbackFrom == names[0]
             else q.model == names[0] && q.fallbackFrom == ""
    ensures var out := Started(q, j, List(q)[j]);
            out.model == List(q)[j] && (out.fallback <==> out.model != names[0])
              && out.fallbackFrom == (if out.fallback then names[0] else "")
  {
    OtherThanFirst(names, available, j);
    assert List(q)[0] == q.model;
  }

  /** The last half of the theorem below, on plain sequences. */
  lemma StartedIsFirst(r: Registry, names: seq<string>, q: Request, available: string -> bool, starts: string -> bool)
    requires List(q) == Filter(names, available) && Distinct(names) && names != [] && names[0] != ""
             && Means(r, List(q), List(q))
    requires if q.fallback then !available(names[0]) && q.fallbackFrom == names[0]
             else q.model == names[0] && q.fallbackFrom == ""
    ensures Start(r, q, starts).Ok? ==> Outcome(names, Start(r, q, starts).value, available, starts)
    ensures Start(r, q, starts).Err? ==>
            Start(r, q, starts).error == Unavailable && NoneFrom(names, 0, Both(available, starts))
  {
    StartsFirst(r, List(q), 0, starts);
    match StartAt(r, List(q), 0, starts)
    case Ok(j) =>
      FlagIsRight(names, q, j, available);
      var i := FirstOfFilter(names, available, starts, j);
      assert Start(r, q, starts).value == Started(q, j, List(q)[j]);
    case Err(_) =>
      NoneOfFilter(names, available, starts);
  }

  lemma NoneOfFilter(names: seq<string>, available: string -> bool, starts: string -> bool)
    requires NoneFrom(Filter(names, available), 0, starts)
    ensures NoneFrom(names, 0, Both(available, starts))
  {
    FilterElements(names, available);
    forall i | 0 <= i < |names|
      ensures !Both(available, starts)(names[i])
    {
      if available(names[i]) {
        assert names[i] in Filter(names, available);
      }
    }
  }

  /** The model is the first candidate that is both usable and able to start; the flag says whether
      it is another than the primary, which is then named. */
  predicate Outcome(names: seq<string>, out: Request, available: string -> bool, starts: string -> bool)
    requires names != []
  {
    && (exists i :: 0 <= i < |names| && IsFirstFrom(names, 0, i, Both(available, starts)) && out.model == names[i])
    && (out.fallback <==> out.model != names[0]) && out.fallbackFrom == (if out.fallback then names[0] else "")
  }

  /** The theorem below for a route whose candidates are called `names`. */
  lemma RouteStarts(r: Registry, w: Routed, names: seq<string>, available: string -> bool, starts: string -> bool)
    requires Means(r, Candidates(w.chosen), names) && UsesFallback(r.cfg) && Distinct(names) && names[0] != ""
    requires forall n :: n in names ==> n in r.index && r.index[n] == n
    ensures match ResolveRoute(r, w, available)
            case Err(e) => e == Unavailable && NoneFrom(names, 0, available)
            case Ok(x) =>
              && (Start(r, ToRequest(x), starts).Ok? ==>
                 Outcome(names, Start(r, ToRequest(x), starts).value, available, starts))
              && (Start(r, ToRequest(x), starts).Err? ==>
                    Start(r, ToRequest(x), starts).error == Unavailable && NoneFrom(names, 0, Both(available, starts)))
  {
    RouteScan(r, w, names, available);
    if ResolveRoute(r, w, available).Ok? {
      FilterElements(names, available);
      StartedIsFirst(r, names, ToRequest(ResolveRoute(r, w, available).value), available, starts);
    }
  }

  /** Under `use_fallback` the model that runs is the first candidate in profile order that is both
      enabled and able to start, and there is an error exactly when no candidate is. */
  lemma OrderedFallback(r: Registry, t: Target, available: string -> bool, starts: string -> bool)
    requires Accepted(r.cfg) && Built(r) && Routes(r.cfg, t) && UsesFallback(r.cfg)
    ensures var result := EndToEnd(r, t, available, starts);
            && (result.Ok? ==> Outcome(RouteNames(r.cfg, t), result.value, available, starts))
            && (result.Err? ==>
                  && result.error == Unavailable
                  && NoneFrom(RouteNames(r.cfg, t), 0, Both(available, starts)))
  {
    var names := RouteNames(r.cfg, t);
    RouteNamesMeant(r, t);
    forall n | n in names
      ensures n in r.cfg.models && n in r.index && r.index[n] == n
    {
      NamesMeanThemselves(r, RouteIds(r.cfg, t), names, n);
    }
    NoModelIsNameless(r.cfg, names[0]);
    RouteIsResolved(r, t, available);
    RouteStarts(r, MeantRoute(r.cfg, t), names, available, starts);
  }

  /** What the daemon's ResolveTarget takes for available: not administratively disabled. */
  function Enabled(c: Config): string -> bool { n => n in c.models && IsEnabled(c.models[n]) }

  method ResolveEnabled(r: Registry, t: Target) returns (out: Result<Resolved, Trouble>)
    ensures out == ResolveTarget(r, t, Enabled(r.cfg))
  {
    out := ResolveTargetWithAvailability(r, t, n => n in r.cfg.models && IsEnabled(r.cfg.models[n]));
  }

  /** The theorem above for what the daemon does: disabled models and models that do not start are passed
      over, nothing else is. */
  lemma EnabledFallback(r: Registry, t: Target, starts: string -> bool)
    requires Accepted(r.cfg) && Built(r) && Routes(r.cfg, t) && UsesFallback(r.cfg)
    ensures var names, result := RouteNames(r.cfg, t), EndToEnd(r, t, Enabled(r.cfg), starts);
            if result.Ok? then
              exists i :: 0 <= i < |names| && names[i] in r.cfg.models && result.value.model == names[i]
                && r.cfg.models[names[i]].enabled != Some(false) && starts(names[i])
                && forall j :: 0 <= j < i && names[j] in r.cfg.models ==>
                   r.cfg.models[names[j]].enabled == Some(false) || !starts(names[j])
            else
              forall i :: 0 <= i < |names| && names[i] in r.cfg.models ==>
                r.cfg.models[names[i]].enabled == Some(false) || !starts(names[i])
  {
    OrderedFallback(r, t, Enabled(r.cfg), starts);
    FirstEnabled(r, RouteNames(r.cfg, t), EndToEnd(r, t, Enabled(r.cfg), starts), starts);
  }

  lemma FirstEnabled(r: Registry, names: seq<string>, result: Result<Request, Trouble>, starts: string -> bool)
    requires names != [] && (result.Ok? ==> Outcome(names, result.value, Enabled(r.cfg), starts))
    requires result.Err? ==> NoneFrom(names, 0, Both(Enabled(r.cfg), starts))
    ensures if result.Ok? then
              exists i :: 0 <= i < |names| && names[i] in r.cfg.models && result.value.model == names[i]
                && r.cfg.models[names[i]].enabled != Some(false) && starts(names[i])
                && forall j :: 0 <= j < i && names[j] in r.cfg.models ==>
                   r.cfg.models[names[j]].enabled == Some(false) || !starts(names[j])
            else
              forall i :: 0 <= i < |names| && names[i] in r.cfg.models ==>
                r.cfg.models[names[i]].enabled == Some(false) || !starts(names[i])
  {
    assert forall i :: 0 <= i < |names| ==>
             (Both(Enabled(r.cfg), starts)(names[i]) <==>
               names[i] in r.cfg.models && IsEnabled(r.cfg.models[names[i]]) && starts(names[i]));
  }

  /** A request without fallbacks runs on its model or not at all. */
  lemma StartsAlone(r: Registry, q: Request, starts: string -> bool)
    requires q.fallbacks == [] && q.model in r.index && r.index[q.model] == q.model
    ensures Start(r, q, starts) == if starts(q.model) then Ok(q) else Err(Unavailable)
  {
    assert List(q) == [q.model];
    assert StartAt(r, List(q), 0, starts) == if starts(q.model) then Ok(0) else StartAt(r, List(q), 1, starts);
  }

  /** An exact target and the `reject` policy never lead to another model. */
  lemma NoFallback(r: Registry, t: Target, available: string -> bool, starts: string -> bool)
    requires Accepted(r.cfg) && Built(r)
             && (if t.model == "" then Routes(r.cfg, t) && !UsesFallback(r.cfg) else t.group == "" && t.profile == "")
    ensures EndToEnd(r, t, available, starts).Ok? ==>
              var q := EndToEnd(r, t, available, starts).value;
              && !q.fallback && q.fallbacks == [] && available(q.model) && starts(q.model)
              && if t.model == "" then q.model == RouteNames(r.cfg, t)[0] else Refers(r.cfg.models, q.model, t.model)
  {
    if t.model == "" {
      RejectOutcome(r, t, available);
      RouteNamesMeant(r, t);
      NamesMeanThemselves(r, RouteIds(r.cfg, t), RouteNames(r.cfg, t), RouteNames(r.cfg, t)[0]);
    } else {
      AcceptedIsUnambiguous(r.cfg);
      ExactOutcome(r, t, available);
    }
    if ResolveTarget(r, t, available).Ok? {
      BuiltIsCanonical(r, ResolveTarget(r, t, available).value.model);
      StartsAlone(r, ToRequest(ResolveTarget(r, t, available).value), starts);
    }
  }
}
