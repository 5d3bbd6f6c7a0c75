/**
 The resident model of a configuration, and what the provider's cooldown makes of it: the runner machine's
 configuration taken from the registry's.
 */
module RunnerResident {
  import opened Common
  import opened Keys
  import opened Config
  import opened Registry
  import opened Fallback
  import ConfigGen
  import M = RunnerMachine
  import T = RunnerTheorems

  /** Registry.Resident: resident_model if it is set, else what an empty target resolves to. */
  function Resident(r: Registry): Result<string, Trouble> {
    if r.cfg.residentModel == "" then
      match ResolveTarget(r, Target("", "", ""), Enabled(r.cfg))
      case Err(e) => Err(e)
      case Ok(x) => Resolve(r, x.model)
    else Resolve(r, r.cfg.residentModel)
  }

  function Resolve(r: Registry, id: string): Result<string, Trouble> {
    if id in r.index then Ok(r.index[id]) else Err(UnknownModel(id))
  }

  /** The parts of the configuration the provider consults. */
  function ForRunner(r: Registry): M.Config {
    M.Config(r.cfg.idleCooldown > 0, r.cfg.residentModel, if Resident(r).Ok? then Some(Resident(r).value) else None)
  }

  lemma ResolvesToModel(r: Registry, id: string)
    requires Built(r) && Unambiguous(r.cfg.models)
    ensures Resolve(r, id).Ok? <==> exists n :: Refers(r.cfg.models, n, id)
    ensures Resolve(r, id).Ok? ==> Refers(r.cfg.models, Resolve(r, id).value, id)
  {
    BuiltIsCanonical(r, id);
    if id in r.cfg.models {
      assert Refers(r.cfg.models, id, id);
    }
  }

  /** A resident_model that is set always names a model; the resident is then that model. */
  lemma SetResidentIsKnown(r: Registry)
    requires Accepted(r.cfg) && Built(r) && r.cfg.residentModel != ""
    ensures Resident(r).Ok? && Refers(r.cfg.models, Resident(r).value, r.cfg.residentModel)
  {
    AcceptedIsUnambiguous(r.cfg);
    ResolvesToModel(r, r.cfg.residentModel);
    BuiltIsCanonical(r, r.cfg.residentModel);
  }

  /** resident_model is the resident's own name if and only if it is a model's name at all. */
  lemma OwnNameIff(r: Registry)
    requires Accepted(r.cfg) && Built(r) && Resident(r).Ok?
    ensures Resident(r).value == r.cfg.residentModel <==> r.cfg.residentModel in r.cfg.models
  {
    AcceptedIsUnambiguous(r.cfg);
    if r.cfg.residentModel != "" {
      ResolvesToModel(r, r.cfg.residentModel);
      BuiltIsCanonical(r, r.cfg.residentModel);
    } else if r.cfg.residentModel in r.cfg.models {
      NoModelIsNameless(r.cfg, "");
    } else if ResolveTarget(r, Target("", "", ""), Enabled(r.cfg)).Ok? {
      ResolvesToModel(r, ResolveTarget(r, Target("", "", ""), Enabled(r.cfg)).value.model);
      assert Resident(r).value in r.cfg.models;
    }
  }

  lemma AliasGivesHypothesis(r: Registry)
    requires Accepted(r.cfg) && Built(r) && Resident(r).Ok? && r.cfg.residentModel !in r.cfg.models
    ensures var c := ForRunner(r);
            c.cooldown && c.resident == Some(Resident(r).value) && c.residentName != Resident(r).value
  {
    OwnNameIff(r);
    CooldownsAreOn(r.cfg);
  }

  /** What ResidentIsCooled says of a resident m. */
  predicate ClosesResident(c: M.Config, m: string, spawned: bool) {
    var s := T.Cooled(m);
    && M.Held(s).Some? && M.Held(s).value.model == m
    && M.Apply(c, s, M.Fire(1, spawned)).Some? && M.Apply(c, s, M.Fire(1, spawned)).value.sessions != []
    && M.Apply(c, s, M.Fire(1, spawned)).value.sessions[0].closed
  }

  lemma HypothesisCloses(c: M.Config, m: string, spawned: bool)
    requires c.cooldown && c.resident == Some(m) && c.residentName != m
    ensures M.Reachable(c, T.Cooled(m)) && ClosesResident(c, m, spawned)
  {
    T.ResidentIsCooled(c, m, spawned);
  }

  /** With an accepted configuration whose resident_model is an alias or empty, the provider reaches a state
      in which the pending cooldown closes the resident. */
  lemma AliasedResidentIsCooled(r: Registry, spawned: bool)
    requires Accepted(r.cfg) && Built(r) && Resident(r).Ok? && r.cfg.residentModel !in r.cfg.models
    ensures M.Reachable(ForRunner(r), T.Cooled(Resident(r).value))
    ensures ClosesResident(ForRunner(r), Resident(r).value, spawned)
  {
    AliasGivesHypothesis(r);
    HypothesisCloses(ForRunner(r), Resident(r).value, spawned);
  }

  lemma CooldownsAreOn(c: Config)
    requires Accepted(c)
    ensures c.idleCooldown > 0
  {
  }

  /* ---------- such a configuration exists ---------- */

  lemma AcceptedWithoutResident(c: Config)
    requires Accepted(c)
    ensures Accepted(c.(residentModel := ""))
  {
  }

  /** A generated configuration with resident_model taken out. */
  lemma EmptyResidentCanBe(pathOf: string -> string) returns (r: Registry)
    ensures Accepted(r.cfg) && Built(r) && r.cfg.residentModel == "" && r.cfg.residentModel !in r.cfg.models
    ensures Resident(r) == Ok("m")
  {
    var q := ConfigGen.HypothesesCanBeMet(pathOf);
    AcceptedWithoutResident(q.cfg);
    r := q.(cfg := q.cfg.(residentModel := ""));
    var order :| IsOrder(q.cfg.models.Keys, order) && q.index == Index(q.cfg.models, order);
    assert r.index == Index(r.cfg.models, order);
    NamelessIsNoModel(r.cfg);
    AcceptedIsUnambiguous(r.cfg);
    ConfigGen.DefaultAlone(r, "m", Enabled(r.cfg));
    BuiltIsCanonical(r, "m");
  }

  lemma NamelessIsNoModel(c: Config)
    requires Accepted(c)
    ensures "" !in c.models
  {
    if "" in c.models {
      NoModelIsNameless(c, "");
    }
  }
}
