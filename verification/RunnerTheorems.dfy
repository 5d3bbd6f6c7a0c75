/**
 The promises of the runner provider, as consequences of the invariant, over every behaviour.
 */
module RunnerTheorems {
  import opened Common
  import opened Bytes
  import opened RunnerFrames
  import opened RunnerMachine
  import opened RunnerLink
  import opened RunnerSafety

  /* ---------- the link ---------- */

  /** Whenever the mutex is free and a session is kept, its process is serving nobody, only Cancels
      are on their way to it, and no frame about any run is on its way back. */
  lemma NoStaleTraffic(c: Config, s: State)
    requires Reachable(c, s) && s.lock == Free && s.current.Some?
    ensures s.current.value < |s.sessions|
    ensures var x := s.sessions[s.current.value];
            && !x.closed && (x.process == Idle || x.process == Gone)
            && (forall k :: 0 <= k < |x.stdin| ==> x.stdin[k].Cancel?)
            && (forall k :: 0 <= k < |x.stdout| ==>
               x.stdout[k].Broken? || (x.stdout[k].owner == None && x.stdout[k].frame == Ready))
  {
    ReachableInv(c, s);
    var x := s.sessions[s.current.value];
    assert Quiet(x);
    forall k | 0 <= k < |x.stdout| && !x.stdout[k].Broken?
      ensures x.stdout[k].owner == None && x.stdout[k].frame == Ready
    {
      assert !Owned(x.stdout[k]) && FrameOk(x.stdout[k]) && !BootError(x.stdout[k]);
    }
  }

  /** A frame about a run that the holder takes off the channel is about the holder's own run. */
  lemma FramesAreOwn(c: Config, s: State, r: nat)
    requires Reachable(c, s) && (s.lock == Reading(r) || (s.lock.Draining? && s.lock.run == r))
    requires Held(s).Some? && Held(s).value.stdout != [] && Held(s).value.stdout[0].Item?
    ensures var o := Held(s).value.stdout[0];
            if o.frame.Ready? then o.owner == None else o.owner == Some(r)
  {
    ReachableInv(c, s);
    var o := Held(s).value.stdout[0];
    assert FrameOk(o) && !BootError(o);
    assert Owned(o) ==> o.owner == Some(r);
  }

  /** No process, closed or not, ever has two Generates outstanding. */
  lemma OneGenerateOutstanding(c: Config, s: State, id: nat)
    requires Reachable(c, s) && id < |s.sessions|
    ensures var x := s.sessions[id];
            && (forall i, j :: 0 <= i < j < |x.stdin| ==> !(x.stdin[i].Generate? && x.stdin[j].Generate?))
            && (x.process.Busy? ==> forall i :: 0 <= i < |x.stdin| ==> !x.stdin[i].Generate?)
  {
    ReachableInv(c, s);
    var x := s.sessions[id];
    assert StdinOrdered(x);
    forall i, j | 0 <= i < j < |x.stdin|
      ensures !(x.stdin[i].Generate? && x.stdin[j].Generate?)
    {
      assert x.stdin[i].Generate? ==> x.stdin[j] == Cancel(x.stdin[i].run);
    }
  }

  /** A process that takes a Cancel is idle or serves the very run it was sent for: a Cancel that
      comes too late never touches a later run. */
  lemma LateCancelHarmless(c: Config, s: State, id: nat, r: nat)
    requires Reachable(c, s) && id < |s.sessions| && s.sessions[id].stdin != []
    requires s.sessions[id].stdin[0] == Cancel(r) && MoveSession(s.sessions[id], TakeInput).Some?
    ensures s.sessions[id].process == Idle || (s.sessions[id].process.Busy? && s.sessions[id].process.run == r)
  {
    ReachableInv(c, s);
    assert StdinOrdered(s.sessions[id]);
  }

  /* ---------- events and text ---------- */

  /** Every run's events are a prefix of `error | started delta* (completed | cancelled | error)`,
      and the whole of it when the run is over and its context never ended. */
  lemma EventTrace(c: Config, s: State, r: nat)
    requires Reachable(c, s) && r < |s.runs|
    ensures Open(s.runs[r].events) || Ended(s.runs[r].events)
    ensures s.runs[r].state == Over && !s.runs[r].ctxDone ==> Ended(s.runs[r].events)
    ensures !s.runs[r].stream ==> NoDelta(s.runs[r].events)
    ensures s.runs[r].events != [] && s.runs[r].events[0].Started? ==> s.runs[r].events[0].model == s.runs[r].model
  {
    ReachableInv(c, s);
    assert RunOk(s.runs[r]);
  }

  /** A `completed` event carries exactly the text the runner produced for that run; it is valid
      UTF-8, and it is the concatenation of the deltas when the client asked for them. */
  lemma TextPreserved(c: Config, s: State, r: nat)
    requires Reachable(c, s) && r < |s.runs| && s.runs[r].events != []
    requires s.runs[r].events[|s.runs[r].events| - 1].CompletedEvent?
    ensures var x, text := s.runs[r], s.runs[r].events[|s.runs[r].events| - 1].text;
            x.generated == Some(text) && ValidUtf8(text) && (x.stream ==> DeltaText(x.events) == text)
  {
    ReachableInv(c, s);
    assert RunOk(s.runs[r]);
  }

  /* ---------- one live process ---------- */

  lemma SingleLiveSession(c: Config, s: State, i: nat, j: nat)
    requires Reachable(c, s) && i < |s.sessions| && j < |s.sessions| && !s.sessions[i].closed && !s.sessions[j].closed
    ensures i == j
  {
    ReachableInv(c, s);
  }

  /** A Generate is only ever written to a live process of the model its run asked for, one that
      has no other Generate to serve. */
  lemma GenerateGoesToOwnModel(c: Config, s: State, t: State)
    requires Reachable(c, s) && Apply(c, s, WriteGenerate(true)) == Some(t)
    ensures s.lock.Sending? && s.lock.run < |s.runs| && s.current.Some? && s.current.value < |s.sessions|
    ensures var x := s.sessions[s.current.value];
            !x.closed && x.model == s.runs[s.lock.run].model && !x.process.Busy? && Generate(s.lock.run) !in x.stdin
  {
    ReachableInv(c, s);
  }

  /* ---------- the cooldown ---------- */

  lemma StepKeepsEpochOrder(c: Config, s: State, a: Action)
    requires Apply(c, s, a).Some?
    ensures s.epoch <= Apply(c, s, a).value.epoch
  {
    if OfHolder(a) {
      HolderKeepsEpoch(c, s, a);
    }
  }

  lemma HolderKeepsEpoch(c: Config, s: State, a: Action)
    requires OfHolder(a) && Apply(c, s, a).Some?
    ensures s.epoch == Apply(c, s, a).value.epoch
  {
  }

  lemma {:induction false} EpochNeverFalls(c: Config, s: State, steps: seq<Action>)
    requires Execute(c, s, steps).Some?
    ensures s.epoch <= Execute(c, s, steps).value.epoch
    decreases |steps|
  {
    if steps != [] {
      StepKeepsEpochOrder(c, s, steps[0]);
      EpochNeverFalls(c, Apply(c, s, steps[0]).value, steps[1..]);
    }
  }

  lemma BeginRaisesEpoch(c: Config, s: State, r: nat, began: bool)
    requires Apply(c, s, BeginRun(r, began)).Some?
    ensures Apply(c, s, BeginRun(r, began)).value.epoch == s.epoch + 1
  {
    BeginIs(c, s, r, began);
  }

  lemma OldEpochDoesNothing(c: Config, s: State, e: nat, spawned: bool)
    requires e < s.epoch && Apply(c, s, Fire(e, spawned)).Some?
    ensures Apply(c, s, Fire(e, spawned)) == Some(s.(callbacks := s.callbacks - {e}))
  {
  }

  /** Once a run has begun, a cooldown function scheduled before it changes nothing, however much
      later it gets the mutex. */
  lemma StaleCooldownDoesNothing(c: Config, s: State, r: nat, began: bool, steps: seq<Action>, u: State, e: nat,
      spawned: bool)
    requires Reachable(c, s) && e in s.callbacks
    requires Execute(c, s, [BeginRun(r, began)] + steps) == Some(u)
    requires Apply(c, u, Fire(e, spawned)).Some?
    ensures Apply(c, u, Fire(e, spawned)) == Some(u.(callbacks := u.callbacks - {e}))
  {
    ReachableInv(c, s);
    assert ([BeginRun(r, began)] + steps)[1..] == steps;
    BeginRaisesEpoch(c, s, r, began);
    EpochNeverFalls(c, Apply(c, s, BeginRun(r, began)).value, steps);
    OldEpochDoesNothing(c, u, e, spawned);
  }

  /** Steps up to the first moment the mutex is free. */
  ghost predicate UntilFree(c: Config, s: State, steps: seq<Action>)
    decreases |steps|
  {
    if s.lock == Free then steps == []
    else steps != [] && Apply(c, s, steps[0]).Some? && UntilFree(c, Apply(c, s, steps[0]).value, steps[1..])
  }

  predicate ResidentOrNone(c: Config, s: State) {
    s.current == None || (Held(s).Some? && c.resident == Some(Held(s).value.model))
  }

  predicate Cooling(s: State) { s.lock.Starting? && s.lock.why == ForCooldown }

  /** The old process has been closed and there is no session any more. */
  predicate ClosedCurrent(s: State, t: State) {
    t.current == None && s.current.Some? && s.current.value < |t.sessions| && t.sessions[s.current.value].closed
  }

  lemma FireIs(c: Config, s: State, e: nat, spawned: bool)
    requires Apply(c, s, Fire(e, spawned)).Some?
    ensures var t := Apply(c, s, Fire(e, spawned)).value;
            s.lock == Free && t == Cooldown(c, s.(callbacks := s.callbacks - {e}), e, spawned)
            && (t.lock == Free || Cooling(t)) && (t == s.(callbacks := s.callbacks - {e}) || ClosedCurrent(s, t))
  {
  }

  /** While a cooldown waits for the resident's process, a step either leaves it waiting or frees the mutex. */
  lemma CoolingStep(c: Config, s: State, a: Action)
    requires Cooling(s) && Apply(c, s, a).Some?
    ensures Apply(c, s, a).value.lock == s.lock
            || (Apply(c, s, a).value.lock == Free && (a.AwaitReady? || a.AbandonStart?))
  {
  }

  lemma CoolingEnds(c: Config, s: State, a: Action)
    requires Inv(c, s) && Cooling(s) && (a.AwaitReady? || a.AbandonStart?) && Apply(c, s, a).Some?
    ensures ResidentOrNone(c, Apply(c, s, a).value)
  {
  }

  lemma {:induction false} CoolingUntilFree(c: Config, s: State, steps: seq<Action>)
    requires Reachable(c, s) && Cooling(s) && UntilFree(c, s, steps)
    ensures Execute(c, s, steps).Some? && ResidentOrNone(c, Execute(c, s, steps).value)
    decreases |steps|
  {
    var t := Apply(c, s, steps[0]).value;
    ReachableInv(c, s);
    CoolingStep(c, s, steps[0]);
    if t.lock == Free {
      CoolingEnds(c, s, steps[0]);
      assert steps[1..] == [];
    } else {
      ReachableStep(c, s, steps[0], t);
      CoolingUntilFree(c, t, steps[1..]);
    }
  }

  /** From the moment a cooldown function takes the mutex until the mutex is free again, whatever other
      parties do meanwhile: either the function changes nothing and lets go at once, or it closes the old
      process and in the end there is no session or the resident's. */
  lemma CooldownOutcome(c: Config, s: State, e: nat, spawned: bool, steps: seq<Action>)
    requires Reachable(c, s) && Apply(c, s, Fire(e, spawned)).Some?
    requires UntilFree(c, Apply(c, s, Fire(e, spawned)).value, steps)
    ensures var t, u := Apply(c, s, Fire(e, spawned)).value, Execute(c, s, [Fire(e, spawned)] + steps);
            && u.Some? && u.value.lock == Free
            && (if t == s.(callbacks := s.callbacks - {e}) then u.value == t
                else ClosedCurrent(s, t) && ResidentOrNone(c, u.value))
  {
    var t := Apply(c, s, Fire(e, spawned)).value;
    assert ([Fire(e, spawned)] + steps)[1..] == steps;
    FireIs(c, s, e, spawned);
    UntilFreeEndsFree(c, t, steps);
    if t.lock != Free {
      ReachableStep(c, s, Fire(e, spawned), t);
      CoolingUntilFree(c, t, steps);
    }
  }

  lemma {:induction false} UntilFreeEndsFree(c: Config, s: State, steps: seq<Action>)
    requires UntilFree(c, s, steps)
    ensures Execute(c, s, steps).Some? && Execute(c, s, steps).value.lock == Free
    decreases |steps|
  {
    if s.lock != Free {
      UntilFreeEndsFree(c, Apply(c, s, steps[0]).value, steps[1..]);
    }
  }

  /** The resident model itself is shut down and started again by a cooldown exactly when
      resident_model is not written as that model's own name (an alias, or nothing at all). */
  lemma ResidentCooledIff(c: Config, s: State, spawned: bool)
    requires Reachable(c, s) && s.lock == Free && s.epoch in s.callbacks
    requires s.current.Some? && s.current.value < |s.sessions| && c.resident == Some(s.sessions[s.current.value].model)
    ensures Apply(c, s, Fire(s.epoch, spawned)).value.sessions[s.current.value].closed
            <==> c.residentName != s.sessions[s.current.value].model
  {
    ReachableInv(c, s);
  }

  /* ---------- the resident is cooled down: a behaviour ---------- */

  const RAN := Run("", false, true, [], [], None, Over)

  /** A run on model m whose context ends before its first event; the cooldown is pending. */
  function Cooled(m: string): State {
    State([Session(m, false, [], [], false, Idle)], Some(0), 1, Some(1), {1}, Free, [RAN.(model := m)])
  }

  function Loading(m: string, process: Process, stdout: seq<Output>): State {
    State([Session(m, false, [], stdout, false, process)], None, 1, None, {}, Starting(0, ForRun(0)),
          [Run(m, false, false, [], [], None, Holding)])
  }

  lemma RunBegins(c: Config, m: string)
    ensures Reachable(c, Loading(m, Booting, []))
  {
    var called := INITIAL.(runs := [Run(m, false, false, [], [], None, Called)]);
    assert INITIAL.runs + called.runs == called.runs;
    assert Execute(c, INITIAL, []) == Some(INITIAL);
    ReachableStep(c, INITIAL, CallRun(m, false), called);
    assert called.runs[0 := called.runs[0].(state := Holding)] == Loading(m, Booting, []).runs;
    assert Apply(c, called, BeginRun(0, true)).value.sessions == Loading(m, Booting, []).sessions;
    ReachableStep(c, called, BeginRun(0, true), Loading(m, Booting, []));
  }

  lemma ModelLoads(c: Config, m: string)
    ensures Reachable(c, Loading(m, Idle, []).(current := Some(0), lock := Begun(0)))
  {
    var booted := Loading(m, Idle, [Item(None, Ready, [])]);
    RunBegins(c, m);
    assert [] + booted.sessions[0].stdout == booted.sessions[0].stdout;
    assert Loading(m, Booting, []).sessions[0 := booted.sessions[0]] == booted.sessions;
    ReachableStep(c, Loading(m, Booting, []), ProcessStep(0, Boot), booted);
    assert booted.sessions[0 := Pop(booted.sessions[0])] == Loading(m, Idle, []).sessions;
    ReachableStep(c, booted, AwaitReady, Loading(m, Idle, []).(current := Some(0), lock := Begun(0)));
  }

  lemma RunIsOver(c: Config, m: string)
    requires c.cooldown && c.residentName != m
    ensures Reachable(c, Cooled(m))
  {
    var begun := Loading(m, Idle, []).(current := Some(0), lock := Begun(0));
    var expired := begun.(runs := [begun.runs[0].(ctxDone := true)]);
    ModelLoads(c, m);
    assert begun.runs[0 := expired.runs[0]] == expired.runs;
    ReachableStep(c, begun, Expire(0), expired);
    assert expired.runs[0 := RAN.(model := m)] == Cooled(m).runs;
    assert expired.callbacks + {1} == {1};
    ReachableStep(c, expired, SendStarted(false), Cooled(m));
  }

  /** The failing case is met whenever resident_model is not the resident's own name, for instance empty:
      a run on the resident leads to a state in which the pending cooldown closes it. */
  lemma ResidentIsCooled(c: Config, m: string, spawned: bool)
    requires c.cooldown && c.resident == Some(m) && c.residentName != m
    ensures Reachable(c, Cooled(m)) && Cooled(m).epoch in Cooled(m).callbacks && Held(Cooled(m)).value.model == m
    ensures Apply(c, Cooled(m), Fire(1, spawned)).Some?
            && Apply(c, Cooled(m), Fire(1, spawned)).value.sessions[0].closed
  {
    RunIsOver(c, m);
    ResidentCooledIff(c, Cooled(m), spawned);
  }
}
