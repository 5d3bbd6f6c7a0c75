/**
 When a model other than the resident, left loaded, will be given up again: exactly when the mutex was
 last taken by a run. A probe stops the timer, and if no run follows it nothing starts it again.
 */
module RunnerCooldown {
  import opened Common
  import opened RunnerFrames
  import opened RunnerMachine
  import opened RunnerLink
  import opened RunnerSafety
  import opened RunnerTheorems

  /** Steps in which a request or the shutdown takes the mutex; a cooldown function is none of them. */
  predicate Takes(a: Action) { a.BeginRun? || a.Probe? || a.Close? }

  function LastTaker(steps: seq<Action>): Option<Action> {
    if steps == [] then None
    else if Takes(steps[|steps| - 1]) then Some(steps[|steps| - 1])
    else LastTaker(steps[..|steps| - 1])
  }

  /** The timer of the current epoch is set and its function has not run. */
  predicate Armed(s: State) { s.timer == Some(s.epoch) && s.epoch in s.callbacks }

  /** A session of this model stays: cooldowns are off, there is no resident to return to, or this is it. */
  predicate Stays(c: Config, model: string) {
    !c.cooldown || model == c.residentName || c.resident == None || c.resident == Some(model)
  }

  predicate RunPlace(c: Config, s: State) {
    match s.lock
    case Free => Held(s).Some? ==> Stays(c, Held(s).value.model) || Armed(s)
    case Starting(_, why) => !why.ForProbe?
    case _ =>
      && HolderOf(s.lock).Some? && HolderOf(s.lock).value < |s.runs|
      && (Held(s).Some? ==> Held(s).value.model == s.runs[HolderOf(s.lock).value].model)
  }

  /** What the last taker of the mutex says about timer, lock and session. */
  predicate Told(c: Config, s: State, last: Option<Action>) {
    match last
    case Some(BeginRun(_, _)) => RunPlace(c, s)
    case Some(Probe(_, _)) => s.timer == None && (s.lock == Free || (s.lock.Starting? && !s.lock.why.ForRun?))
    case _ => s.lock == Free && s.current == None
  }

  lemma LeaveTells(c: Config, s: State, r: nat, end: RunState)
    requires r < |s.runs| && (Held(s).Some? ==> Held(s).value.model == s.runs[r].model)
    ensures RunPlace(c, Leave(c, s, r, end))
  {
  }

  lemma DiscardTells(c: Config, s: State, r: nat, end: RunState)
    requires r < |s.runs|
    ensures RunPlace(c, Leave(c, CloseCurrent(s), r, end))
  {
    LeaveTells(c, CloseCurrent(s), r, end);
  }

  lemma ReadFailedTells(c: Config, s: State, r: nat)
    requires s.lock == Reading(r) && r < |s.runs| && RunPlace(c, s)
    ensures RunPlace(c, ReadFailed(c, s, r))
  {
    if !s.runs[r].ctxDone {
      DiscardTells(c, s, r, Erring);
    }
  }

  lemma ConsumeTells(c: Config, s: State, r: nat, o: Output)
    requires s.lock == Reading(r) && r < |s.runs| && RunPlace(c, s)
    ensures RunPlace(c, Consume(c, s, r, o))
  {
    if o.Broken? {
      ReadFailedTells(c, s, r);
    } else if o.frame.Ready? {
      DiscardTells(c, s, r, Erring);
    }
  }

  lemma ReadTells(c: Config, s: State)
    requires RunPlace(c, s) && Apply(c, s, ReadFrame).Some?
    ensures RunPlace(c, Apply(c, s, ReadFrame).value)
  {
    ConsumeTells(c, SetHeld(s, Pop(Held(s).value)), s.lock.run, Held(s).value.stdout[0]);
  }

  lemma DrainTells(c: Config, s: State)
    requires RunPlace(c, s) && DrainsFrame(s)
    ensures RunPlace(c, Drain(c, SetHeld(s, Pop(Held(s).value)), s.lock.run, s.lock.reports, Held(s).value.stdout[0]))
  {
    var t := SetHeld(s, Pop(Held(s).value));
    LeaveTells(c, t, s.lock.run, Over);
    DiscardTells(c, t, s.lock.run, if s.lock.reports then Erring else Over);
  }

  lemma StartedTells(c: Config, s: State, ok: bool)
    requires RunPlace(c, s) && Apply(c, s, SendStarted(ok)).Some?
    ensures RunPlace(c, Apply(c, s, SendStarted(ok)).value)
  {
    if !ok {
      LeaveTells(c, s, s.lock.run, Over);
    }
  }

  lemma FinalTells(c: Config, s: State, ok: bool)
    requires RunPlace(c, s) && Apply(c, s, SendFinal(ok)).Some?
    ensures RunPlace(c, Apply(c, s, SendFinal(ok)).value)
  {
    var r := s.lock.run;
    var x := s.runs[r];
    LeaveTells(c, if ok then SetRun(s, r, x.(events := x.events + [s.lock.final])) else s, r, Over);
  }

  lemma GenerateTells(c: Config, s: State, ok: bool)
    requires RunPlace(c, s) && Apply(c, s, WriteGenerate(ok)).Some?
    ensures RunPlace(c, Apply(c, s, WriteGenerate(ok)).value)
  {
    if !ok {
      DiscardTells(c, s, s.lock.run, Erring);
    }
  }

  lemma CancelTells(c: Config, s: State, ok: bool)
    requires RunPlace(c, s) && Apply(c, s, WriteCancel(ok)).Some?
    ensures RunPlace(c, Apply(c, s, WriteCancel(ok)).value)
  {
    if !ok {
      DiscardTells(c, s, s.lock.run, if s.lock.reports then Erring else Over);
    }
  }

  lemma DeltaTells(c: Config, s: State, ok: bool)
    requires RunPlace(c, s) && Apply(c, s, SendDelta(ok)).Some?
    ensures RunPlace(c, Apply(c, s, SendDelta(ok)).value)
  {
  }

  lemma StopTells(c: Config, s: State, a: Action)
    requires RunPlace(c, s) && Apply(c, s, a).Some? && (a.ReadEnd? || a.ReadExpired?)
    ensures RunPlace(c, Apply(c, s, a).value)
  {
    ReadFailedTells(c, s, s.lock.run);
  }

  lemma DrainStopTells(c: Config, s: State)
    requires Apply(c, s, DrainStop).Some?
    ensures RunPlace(c, Apply(c, s, DrainStop).value)
  {
    DiscardTells(c, s, s.lock.run, if s.lock.reports then Erring else Over);
  }

  lemma AwaitTells(c: Config, s: State, a: Action)
    requires Inv(c, s) && RunPlace(c, s) && Apply(c, s, a).Some? && (a.AwaitReady? || a.AbandonStart?)
    ensures RunPlace(c, Apply(c, s, a).value)
  {
  }

  lemma HolderTells(c: Config, s: State, a: Action)
    requires Inv(c, s) && RunPlace(c, s) && OfHolder(a) && Apply(c, s, a).Some?
    ensures RunPlace(c, Apply(c, s, a).value)
  {
    match a
    case ReadFrame => ReadTells(c, s);
    case DrainFrame => DrainTells(c, s);
    case ReadEnd => StopTells(c, s, a);
    case ReadExpired => StopTells(c, s, a);
    case DrainStop => DrainStopTells(c, s);
    case AwaitReady => AwaitTells(c, s, a);
    case AbandonStart => AwaitTells(c, s, a);
    case Wait =>
    case SendStarted(ok) => StartedTells(c, s, ok);
    case SendFinal(ok) => FinalTells(c, s, ok);
    case SendDelta(ok) => DeltaTells(c, s, ok);
    case WriteGenerate(ok) => GenerateTells(c, s, ok);
    case WriteCancel(ok) => CancelTells(c, s, ok);
  }

  lemma FireTells(c: Config, s: State, e: nat, spawned: bool)
    requires Inv(c, s) && RunPlace(c, s) && Apply(c, s, Fire(e, spawned)).Some?
    ensures RunPlace(c, Apply(c, s, Fire(e, spawned)).value)
  {
  }

  lemma BeginTells(c: Config, s: State, r: nat, spawned: bool)
    requires Inv(c, s) && Apply(c, s, BeginRun(r, spawned)).Some?
    ensures RunPlace(c, Apply(c, s, BeginRun(r, spawned)).value)
  {
    BeginIs(c, s, r, spawned);
  }

  /** Steps outside the mutex tell nothing new. */
  lemma OutsideTells(c: Config, s: State, a: Action)
    requires RunPlace(c, s) && Apply(c, s, a).Some?
    requires a.ProcessStep? || a.Expire? || a.CallRun? || a.RejectInput? || a.SendError?
    ensures RunPlace(c, Apply(c, s, a).value)
  {
  }

  lemma RunTells(c: Config, s: State, a: Action)
    requires Inv(c, s) && RunPlace(c, s) && !Takes(a) && Apply(c, s, a).Some?
    ensures RunPlace(c, Apply(c, s, a).value)
  {
    if OfHolder(a) {
      HolderTells(c, s, a);
    } else if a.Fire? {
      FireTells(c, s, a.epoch, a.spawned);
    } else {
      OutsideTells(c, s, a);
    }
  }

  lemma ProbeTells(c: Config, s: State, a: Action)
    requires s.timer == None && (s.lock == Free || (s.lock.Starting? && !s.lock.why.ForRun?))
    requires !Takes(a) && Apply(c, s, a).Some?
    ensures var t := Apply(c, s, a).value;
            t.timer == None && (t.lock == Free || (t.lock.Starting? && !t.lock.why.ForRun?))
  {
  }

  lemma NothingTells(c: Config, s: State, a: Action)
    requires s.lock == Free && s.current == None && !Takes(a) && Apply(c, s, a).Some?
    ensures var t := Apply(c, s, a).value; t.lock == Free && t.current == None
  {
  }

  lemma TakerTells(c: Config, s: State, a: Action)
    requires Inv(c, s) && Takes(a) && Apply(c, s, a).Some?
    ensures Told(c, Apply(c, s, a).value, Some(a))
  {
    if a.BeginRun? {
      BeginTells(c, s, a.run, a.spawned);
    }
  }

  lemma {:induction false} HistoryTells(c: Config, steps: seq<Action>, s: State)
    requires Execute(c, INITIAL, steps) == Some(s)
    ensures Told(c, s, LastTaker(steps))
  {
    if steps != [] {
      var n := |steps| - 1;
      var a := steps[n];
      assert steps[..n] + [a] == steps;
      ExecutePrefix(c, INITIAL, steps[..n], [a]);
      var before := Execute(c, INITIAL, steps[..n]).value;
      ExecuteAppend(c, INITIAL, steps[..n], a);
      HistoryTells(c, steps[..n], before);
      assert Reachable(c, before);
      ReachableInv(c, before);
      if Takes(a) {
        TakerTells(c, before, a);
      } else {
        match LastTaker(steps[..n])
        case Some(BeginRun(_, _)) => RunTells(c, before, a);
        case Some(Probe(_, _)) => ProbeTells(c, before, a);
        case _ => NothingTells(c, before, a);
      }
    }
  }

  lemma {:induction false} ExecutePrefix(c: Config, s: State, steps: seq<Action>, more: seq<Action>)
    requires Execute(c, s, steps + more).Some?
    ensures Execute(c, s, steps).Some?
    decreases |steps|
  {
    if steps != [] {
      assert (steps + more)[1..] == steps[1..] + more;
      ExecutePrefix(c, Apply(c, s, steps[0]).value, steps[1..], more);
    }
  }

  /** With the mutex free and a model loaded that is not to stay, its cooldown is pending if and only if
      the mutex was last taken by a run: not after a probe, even if the request then came to nothing. */
  lemma CooldownPendingIff(c: Config, steps: seq<Action>, s: State)
    requires Execute(c, INITIAL, steps) == Some(s) && s.lock == Free
    requires Held(s).Some? && !Stays(c, Held(s).value.model)
    ensures Armed(s) <==> LastTaker(steps).Some? && LastTaker(steps).value.BeginRun?
  {
    HistoryTells(c, steps, s);
  }

  /** A pending cooldown gives the model up for the resident as soon as it gets the mutex. */
  lemma ArmedGivesUp(c: Config, s: State, spawned: bool)
    requires s.lock == Free && Held(s).Some? && !Stays(c, Held(s).value.model) && Armed(s)
    ensures var next := Apply(c, s, Fire(s.epoch, spawned));
            next.Some? && ClosedCurrent(s, next.value) && (spawned ==> Cooling(next.value))
  {
  }

  /** The failing case is met: a model is probed, and the input of its request is then refused. */
  lemma RefusedInputLeavesModel(c: Config, m: string)
    requires !Stays(c, m)
    ensures exists steps, s ::
              && Execute(c, INITIAL, steps) == Some(s) && s.lock == Free && Held(s).Some? && Held(s).value.model == m
              && s.timer == None && s.callbacks == {} && |s.runs| == 1 && s.runs[0].state == Erring
  {
    var booting := INITIAL.(sessions := [Session(m, false, [], [], false, Booting)], lock := Starting(0, ForProbe));
    var ready := booting.(sessions := [Session(m, false, [], [Item(None, Ready, [])], false, Idle)]);
    var probed := ready.(sessions := [Session(m, false, [], [], false, Idle)], current := Some(0), lock := Free);
    var called := probed.(runs := [Run(m, false, false, [], [], None, Called)]);
    var refused := called.(runs := [called.runs[0].(state := Erring)]);
    Steps(c, m, booting, ready, probed);
    assert probed.runs + called.runs == called.runs && called.runs[0 := refused.runs[0]] == refused.runs;
    assert Apply(c, probed, CallRun(m, false)) == Some(called) && Apply(c, called, RejectInput(0)) == Some(refused);
    var h := [Probe(m, true), ProcessStep(0, Boot), AwaitReady];
    ExecuteAppend(c, INITIAL, h, CallRun(m, false));
    ExecuteAppend(c, INITIAL, h + [CallRun(m, false)], RejectInput(0));
    assert Execute(c, INITIAL, h + [CallRun(m, false)] + [RejectInput(0)]) == Some(refused);
  }

  lemma Steps(c: Config, m: string, booting: State, ready: State, probed: State)
    requires booting == INITIAL.(sessions := [Session(m, false, [], [], false, Booting)], lock := Starting(0, ForProbe))
    requires ready == booting.(sessions := [Session(m, false, [], [Item(None, Ready, [])], false, Idle)])
    requires probed == ready.(sessions := [Session(m, false, [], [], false, Idle)], current := Some(0), lock := Free)
    ensures Execute(c, INITIAL, [Probe(m, true), ProcessStep(0, Boot), AwaitReady]) == Some(probed)
  {
    ProbeStarts(c, m, booting);
    ProbeEnds(c, m, booting, ready, probed);
    var none: seq<Action> := [];
    assert Execute(c, INITIAL, none) == Some(INITIAL);
    ExecuteAppend(c, INITIAL, none, Probe(m, true));
    ExecuteAppend(c, INITIAL, [Probe(m, true)], ProcessStep(0, Boot));
    ExecuteAppend(c, INITIAL, [Probe(m, true), ProcessStep(0, Boot)], AwaitReady);
    assert none + [Probe(m, true)] == [Probe(m, true)];
    assert [Probe(m, true)] + [ProcessStep(0, Boot)] == [Probe(m, true), ProcessStep(0, Boot)];
    assert [Probe(m, true), ProcessStep(0, Boot)] + [AwaitReady] == [Probe(m, true), ProcessStep(0, Boot), AwaitReady];
  }

  lemma ProbeStarts(c: Config, m: string, booting: State)
    requires booting == INITIAL.(sessions := [Session(m, false, [], [], false, Booting)], lock := Starting(0, ForProbe))
    ensures Apply(c, INITIAL, Probe(m, true)) == Some(booting)
  {
    assert [] + booting.sessions == booting.sessions;
  }

  lemma ProbeEnds(c: Config, m: string, booting: State, ready: State, probed: State)
    requires booting == INITIAL.(sessions := [Session(m, false, [], [], false, Booting)], lock := Starting(0, ForProbe))
    requires ready == booting.(sessions := [Session(m, false, [], [Item(None, Ready, [])], false, Idle)])
    requires probed == ready.(sessions := [Session(m, false, [], [], false, Idle)], current := Some(0), lock := Free)
    ensures Apply(c, booting, ProcessStep(0, Boot)) == Some(ready) && Apply(c, ready, AwaitReady) == Some(probed)
  {
    assert [] + ready.sessions[0].stdout == ready.sessions[0].stdout;
    assert booting.sessions[0 := ready.sessions[0]] == ready.sessions;
    assert ready.sessions[0].stdout[1..] == [];
    assert ready.sessions[0 := probed.sessions[0]] == probed.sessions;
  }
}
