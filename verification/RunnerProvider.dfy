/**
 The runner provider as the program writes it: fields updated under a mutex and loops over frames.
 `history` records which steps of the machine have been taken, so that every state the code goes
 through is a reachable one and the theorems about reachable states are theorems about the code.

 Between two statements that touch a pipe or an event channel other parties may act:
 `Interleave` lets child processes, contexts and other requests take any number of steps.
 Each frame loop runs for at most `patience` iterations and may stop in the middle of a run.
 */
module RunnerProvider {
  import opened Common
  import opened Bytes
  import opened RunnerFrames
  import opened RunnerMachine
  import opened RunnerLink
  import opened RunnerSafety
  import opened RunnerHonest

  lemma OutsideStep(c: Config, s: State, a: Action, r: nat)
    requires Outside(a) && Apply(c, s, a).Some?
    ensures var t := Apply(c, s, a).value;
            && t == s.(sessions := t.sessions, runs := t.runs)
            && |t.sessions| == |s.sessions| && |t.runs| >= |s.runs|
            && (forall i :: 0 <= i < |s.sessions| ==> t.sessions[i].model == s.sessions[i].model)
            && (r < |s.runs| && s.runs[r].state == Holding ==>
                  t.runs[r] == s.runs[r].(ctxDone := t.runs[r].ctxDone) && (s.runs[r].ctxDone ==> t.runs[r].ctxDone))
  {
  }

  datatype Outcome = Finished(failed: bool) | Unfinished

  class Provider {
    const config: Config
    const fate: nat -> bool
    var now: nat                 // the number of steps so far
    var sessions: seq<Session>
    var session: Option<nat>
    var epoch: nat
    var timer: Option<nat>
    var callbacks: set<nat>
    var mu: Lock
    var runs: seq<Run>
    ghost var history: seq<Action>

    function Abs(): State reads this { State(sessions, session, epoch, timer, callbacks, mu, runs) }

    /** s is the state the recorded steps lead to, and each of them was the one that was called for. */
    ghost predicate At(s: State) reads this {
      Execute(config, INITIAL, history) == Some(s) && Honest(config, fate, history) && now == |history|
    }

    ghost predicate Valid() reads this { At(Abs()) }

    constructor (config: Config, fate: nat -> bool)
      ensures Valid() && this.config == config && this.fate == fate && Abs() == INITIAL
    {
      this.config, this.fate, now := config, fate, 0;
      sessions, session, epoch, timer, callbacks, mu, runs := [], None, 0, None, {}, Free, [];
      history := [];
    }

    method Record(ghost before: State, ghost a: Action)
      requires At(before) && Apply(config, before, a) == Some(Abs()) && HonestStep(config, before, a, fate(now))
      modifies `history, `now
      ensures Valid() && history == old(history) + [a]
      ensures HolderSteps(history) == HolderSteps(old(history)) + if OfHolder(a) then 1 else 0
    {
      ExecuteAppend(config, INITIAL, history, a);
      HonestAppend(config, fate, history, before, a);
      HolderStepsAppend(history, a);
      history := history + [a];
      now := now + 1;
    }

    /** At least n more steps of holders of the mutex have been recorded. */
    twostate predicate Recorded(n: nat) reads this {
      old(history) <= history && HolderSteps(history) >= HolderSteps(old(history)) + n
    }

    lemma Invariant()
      requires Valid()
      ensures Inv(config, Abs())
    {
      InvariantOf(Abs());
    }

    /** The holder's run exists, and so does its session once there is one to write to. */
    lemma HolderFacts(r: nat)
      requires Valid() && HolderOf(mu) == Some(r)
      ensures r < |runs| && runs[r].state == Holding
      ensures mu.Sending? || mu.Reading? || mu.Delivering? || mu.Aborting? || mu.Draining? ==>
              session.Some? && session.value < |sessions|
    {
      Invariant();
    }

    lemma InvariantOf(s: State)
      requires At(s)
      ensures Inv(config, s)
    {
      assert Reachable(config, s);
      ReachableInv(config, s);
    }

    lemma RestFacts()
      requires Valid() && mu == Free
      ensures session.Some? ==> session.value < |sessions| && Quiet(sessions[session.value])
    {
      Invariant();
    }

    /** What the holder of the mutex can rely on while others act. */
    twostate predicate Undisturbed(r: nat)
      reads this
    {
      && session == old(session) && epoch == old(epoch) && timer == old(timer) && callbacks == old(callbacks)
         && mu == old(mu)
      && |sessions| == |old(sessions)| && |runs| >= |old(runs)|
      && (r < |old(runs)| && old(runs)[r].state == Holding ==>
            runs[r] == old(runs)[r].(ctxDone := runs[r].ctxDone) && (old(runs)[r].ctxDone ==> runs[r].ctxDone))
      && (forall i :: 0 <= i < |sessions| ==> sessions[i].model == old(sessions)[i].model)
      && Recorded(0) && forall i :: |old(history)| <= i < |history| ==> Outside(history[i])
    }

    method Interleave(ghost r: nat)
      requires Valid()
      modifies this
      ensures Valid() && Undisturbed(r)
    {
      var n: nat := *;
      while n > 0
        invariant Valid() && Undisturbed(r)
      {
        OutsideMove(r);
        n := n - 1;
      }
    }

    /** One step of another party, if it can be taken. */
    method OutsideMove(ghost r: nat)
      requires Valid()
      modifies this
      ensures Valid() && Undisturbed(r)
    {
      var a: Action := *;
      var next := Apply(config, Abs(), a);
      if Outside(a) && next.Some? {
        ghost var before := Abs();
        OutsideStep(config, before, a, r);
        sessions, runs := next.value.sessions, next.value.runs;
        Record(before, a);
      }
    }

    /* ---------- pieces that run without letting go of the mutex ---------- */

    /** session.close, p.session = nil */
    method CloseSession()
      modifies `sessions, `session
      ensures Abs() == CloseCurrent(old(Abs()))
    {
      if session.Some? {
        if session.value < |sessions| {
          sessions := sessions[session.value := sessions[session.value].(closed := true)];
        }
        session := None;
      }
    }

    /** sessionFor and startSession return an error. */
    method GiveUp(why: Why)
      requires why.ForRun? ==> why.run < |runs|
      modifies `mu, `runs
      ensures Abs() == NoSession(old(Abs()), why)
    {
      if why.ForRun? {
        runs := runs[why.run := runs[why.run].(state := Erring)];
      }
      mu := Free;
    }

    /** sessionFor returns a session. */
    method Proceed(why: Why)
      modifies `mu
      ensures Abs() == HasSession(old(Abs()), why)
    {
      if why.ForRun? {
        mu := Begun(why.run);
      } else {
        mu := Free;
      }
    }

    /** startSession as far as the new process; cmd.Start may fail. */
    method StartSession(model: string, why: Why) returns (spawned: bool)
      requires why.ForRun? ==> why.run < |runs|
      modifies `sessions, `mu, `runs
      ensures Abs() == RunnerMachine.StartSession(old(Abs()), model, why, spawned) && spawned == fate(now)
    {
      spawned := fate(now);
      if !spawned {
        GiveUp(why);
        return;
      }
      mu := Starting(|sessions|, why);
      sessions := sessions + [Session(model, false, [], [], false, Booting)];
    }

    method SessionFor(model: string, why: Why) returns (spawned: bool)
      requires why.ForRun? ==> why.run < |runs|
      modifies `sessions, `session, `mu, `runs
      ensures Abs() == RunnerMachine.SessionFor(old(Abs()), model, why, spawned)
      ensures spawned == (fate(now) && NeedsStart(old(Abs()), model))
      ensures !NeedsStart(old(Abs()), model) ==> sessions == old(sessions) && session == old(session)
    {
      spawned := false;
      if session.Some? && session.value < |sessions| && sessions[session.value].model == model {
        Proceed(why);
        return;
      }
      CloseSession();
      spawned := StartSession(model, why);
    }

    /** `run` returns: scheduleCooldownLocked, then p.mu.Unlock. */
    method Return(r: nat, failed: bool)
      requires r < |runs|
      modifies `runs, `mu, `timer, `callbacks
      ensures Abs() == Leave(config, old(Abs()), r, if failed then Erring else Over)
    {
      var model := runs[r].model;
      runs := runs[r := runs[r].(state := if failed then Erring else Over)];
      if config.cooldown && model != config.residentName {
        timer := Some(epoch);
        callbacks := callbacks + {epoch};
      }
      mu := Free;
    }

    method SendEvent(r: nat, e: Event)
      requires r < |runs|
      modifies `runs
      ensures runs == old(runs)[r := old(runs)[r].(events := old(runs)[r].events + [e])]
    {
      runs := runs[r := runs[r].(events := runs[r].events + [e])];
    }

    /** A select between an ended context and something that is ready. */
    method ContextWins(r: nat) returns (wins: bool)
      requires r < |runs|
      ensures wins == (!fate(now) && runs[r].ctxDone)
    {
      wins := !fate(now) && runs[r].ctxDone;
    }

    /* ---------- startSession waiting for Ready ---------- */

    lemma StartFacts()
      requires Valid() && mu.Starting?
      ensures mu.id < |sessions| && session == None
      ensures mu.why.ForRun? ==> mu.why.run < |runs|
      ensures mu.why.ForCooldown? ==> config.resident == Some(sessions[mu.id].model)
    {
      Invariant();
    }

    /** What is left of a session that was wanted for `why`. */
    predicate AfterStart(why: Why) reads this {
      match why
      case ForProbe => mu == Free
      case ForRun(r) => mu == Begun(r) || (mu == Free && r < |runs| && runs[r].state == Erring)
      case ForCooldown =>
        mu == Free && (session.Some? ==>
          session.value < |sessions| && config.resident == Some(sessions[session.value].model))
    }

    /** The started process became p.session, or there is none; what was recorded are steps outside the
        mutex and the one that ended the wait. */
    twostate predicate Awaited(id: nat) reads this {
      && (session == None
          || (session == Some(id) && id < |old(sessions)| && id < |sessions|
              && sessions[id].model == old(sessions)[id].model))
      && |old(history)| < |history|
      && (history[|history| - 1].AwaitReady? || history[|history| - 1].AbandonStart?)
      && forall i :: |old(history)| <= i < |history| - 1 ==> Outside(history[i])
    }

    method AwaitReady()
      requires Valid() && mu.Starting?
      modifies this
      ensures Valid() && old(history) <= history && AfterStart(old(mu).why) && Awaited(old(mu).id)
    {
      Interleave(if mu.why.ForRun? then mu.why.run else 0);
      EndWait();
    }

    /** The first frame, or the channel's end, or the start timeout. */
    method EndWait()
      requires Valid() && mu.Starting?
      modifies this
      ensures Valid() && AfterStart(old(mu).why) && Awaited(old(mu).id)
      ensures old(history) <= history && |history| == |old(history)| + 1 && |sessions| == |old(sessions)|
      ensures var id := old(mu).id;
              && id < |old(sessions)|
              && var said := old(sessions)[id].stdout;
                 && (fate(old(now)) && said != [] && IsReadyItem(said[0]) <==> session == Some(id))
                 && history == old(history) + [if fate(old(now)) && said != [] then Action.AwaitReady
                                               else Action.AbandonStart]
    {
      StartFacts();
      ghost var before := Abs();
      var id, why := mu.id, mu.why;
      var x := sessions[id];
      if x.stdout == [] || !fate(now) {
        AbandonStart(before, Action.AbandonStart);
        return;
      }
      var o := x.stdout[0];
      sessions := sessions[id := Pop(x)];
      if o.Item? && o.frame == Ready {
        session := Some(id);
        Proceed(why);
        Record(before, Action.AwaitReady);
      } else {
        AbandonStart(before, Action.AwaitReady);
      }
    }

    method AbandonStart(ghost before: State, ghost a: Action)
      requires At(before)
      requires mu.Starting? && mu.id < |sessions| && session == None && (mu.why.ForRun? ==> mu.why.run < |runs|)
      requires Apply(config, before, a) == Some(AbandonedStart(Abs())) && HonestStep(config, before, a, fate(now))
      modifies this
      ensures Valid() && history == old(history) + [a] && AfterStart(old(mu).why) && session == None
      ensures |sessions| == |old(sessions)|
    {
      var id, why := mu.id, mu.why;
      sessions := sessions[id := sessions[id].(closed := true)];
      GiveUp(why);
      Record(before, a);
    }

    /* ---------- cancelAndDrain ---------- */

    /** What Finished says about the provider. */
    predicate Ended(r: nat, failed: bool) reads this {
      mu == Free && r < |runs| && runs[r].state == (if failed then Erring else Over)
    }

    /** Either the run has ended, or patience has run out while it waits for a frame. */
    predicate Stopped(r: nat, outcome: Outcome) reads this {
      match outcome
      case Finished(failed) => Ended(r, failed)
      case Unfinished => mu == Reading(r) || (mu.Draining? && mu.run == r)
    }

    /** Where cancelAndDrain has got to: still draining, or `run` has returned, with the session kept if the
        runner confirmed with Completed and discarded otherwise. `was` is the session before. */
    predicate Drained(r: nat, reports: bool, was: Option<nat>, outcome: Outcome, kept: bool) reads this {
      match outcome
      case Unfinished => mu == Draining(r, reports) && session == was
      case Finished(failed) =>
        Ended(r, failed) && if kept then session == was && !failed else session == None && failed == reports
    }

    /** cancelAndDrain returned an error: the session is discarded and `run` returns. */
    method DrainFails(r: nat, reports: bool, ghost before: State, ghost a: Action) returns (outcome: Outcome)
      requires At(before) && r < |runs|
      requires Apply(config, before, a) == Some(DrainFailed(config, Abs(), r, reports))
      requires HonestStep(config, before, a, fate(now)) && OfHolder(a)
      modifies this
      ensures Valid() && old(history) <= history && outcome == Finished(reports) && Ended(r, reports) && session == None
    {
      CloseSession();
      Return(r, reports);
      Record(before, a);
      return Finished(reports);
    }

    /** The Cancel goes on stdin, or the session is given up. */
    method SendCancel(r: nat) returns (outcome: Outcome)
      requires Valid() && mu.Aborting? && mu.run == r
      modifies this
      ensures Valid() && old(history) <= history
      ensures Drained(r, old(mu).reports, old(session), outcome, false)
      ensures outcome == Unfinished ==> Recorded(1)
    {
      var reports := mu.reports;
      Interleave(r);
      HolderFacts(r);
      ghost var before := Abs();
      if !fate(now) {
        outcome := DrainFails(r, reports, before, WriteCancel(false));
        return;
      }
      var id := session.value;
      sessions := sessions[id := sessions[id].(stdin := sessions[id].stdin + [Cancel(r)])];
      mu := Draining(r, reports);
      Record(before, WriteCancel(true));
      outcome := Unfinished;
    }

    /** Ends with the mutex released, unless patience runs out while draining. */
    method CancelAndDrain(r: nat, patience: nat) returns (outcome: Outcome, kept: bool)
      requires Valid() && mu.Aborting? && mu.run == r
      modifies this
      ensures Valid() && old(history) <= history
      ensures Drained(r, old(mu).reports, old(session), outcome, kept)
      ensures outcome == Unfinished ==> Recorded(patience)
    {
      var reports := mu.reports;
      outcome := SendCancel(r);
      kept := false;
      var left := patience;
      while left > 0 && outcome == Unfinished
        invariant Valid() && old(history) <= history && Drained(r, reports, old(session), outcome, kept)
        invariant left <= patience && (outcome == Unfinished ==> Recorded(patience - left))
      {
        left := left - 1;
        outcome, kept := DrainOne(r, reports);
      }
    }

    /** One turn of the loop of cancelAndDrain. */
    method DrainOne(r: nat, reports: bool) returns (outcome: Outcome, kept: bool)
      requires Valid() && mu == Draining(r, reports)
      modifies this
      ensures Valid() && old(history) <= history && Drained(r, reports, old(session), outcome, kept)
      ensures outcome == Unfinished ==> Recorded(1)
    {
      Interleave(r);
      HolderFacts(r);
      ghost var before := Abs();
      var id := session.value;
      var x := sessions[id];
      if x.stdout == [] || !fate(now) {
        // the five seconds are over, or the channel is closed
        outcome := DrainFails(r, reports, before, DrainStop);
        return outcome, false;
      }
      sessions := sessions[id := Pop(x)];
      outcome, kept := DrainDispatch(r, reports, x.stdout[0], before);
    }

    /** The switch on the tag of a frame that has just been taken off the channel. */
    method DrainDispatch(r: nat, reports: bool, o: Output, ghost before: State) returns (outcome: Outcome, kept: bool)
      requires At(before) && r < |runs| && mu == Draining(r, reports)
      requires Apply(config, before, DrainFrame) == Some(Drain(config, Abs(), r, reports, o))
      requires HonestStep(config, before, DrainFrame, fate(now))
      modifies this
      ensures Valid() && old(history) <= history && Drained(r, reports, old(session), outcome, kept)
      ensures outcome == Unfinished <==> o.Item? && o.frame.Chunk?
      ensures kept <==> o.Item? && o.frame.Completed?
      ensures outcome == Unfinished ==> Recorded(1)
    {
      outcome, kept := Unfinished, false;
      if o.Item? && o.frame.Chunk? {
        Record(before, DrainFrame);
      } else if o.Item? && o.frame.Completed? {
        // A late Cancel is ignored by the idle process; the session is kept.
        Return(r, false);
        Record(before, DrainFrame);
        outcome, kept := Finished(false), true;
      } else {
        outcome := DrainFails(r, reports, before, DrainFrame);
      }
    }

    /* ---------- run ---------- */

    /** Event e reached the client of run r, or the context had ended. */
    twostate predicate Reported(r: nat, e: Event)
      requires r < |old(runs)|
      reads this
    {
      r < |runs| && (runs[r].events == old(runs)[r].events + [e]
        || (runs[r].ctxDone && runs[r].events == old(runs)[r].events))
    }

    /** The last event of a run. */
    method Report(r: nat) returns (outcome: Outcome)
      requires Valid() && mu.Reporting? && mu.run == r && r < |runs|
      modifies this
      ensures Valid() && old(history) <= history && outcome == Finished(false) && Ended(r, false)
      ensures session == old(session) && Reported(r, old(mu).final)
    {
      HolderFacts(r);
      Interleave(r);
      var ended := ContextWins(r);
      EndReport(r, !ended);
      return Finished(false);
    }

    method EndReport(r: nat, ok: bool)
      requires Valid() && mu.Reporting? && mu.run == r && r < |runs| && ok == (fate(now) || !runs[r].ctxDone)
      modifies this
      ensures Valid() && old(history) <= history && Ended(r, false) && session == old(session)
      ensures runs[r].ctxDone == old(runs)[r].ctxDone
      ensures runs[r].events == old(runs)[r].events + if ok then [old(mu).final] else []
    {
      ghost var before := Abs();
      if ok {
        SendEvent(r, mu.final);
      }
      Return(r, false);
      Record(before, SendFinal(ok));
    }

    /** readFrame returned an error that is not, or not only, the end of the context. */
    method FailRead(r: nat, patience: nat, ghost before: State, ghost a: Action) returns (outcome: Outcome)
      requires At(before) && r < |runs| && mu == Reading(r)
      requires Apply(config, before, a) == Some(ReadFailed(config, Abs(), r))
      requires HonestStep(config, before, a, fate(now)) && OfHolder(a)
      modifies this
      ensures Valid() && old(history) <= history && Stopped(r, outcome)
      ensures outcome.Finished? ==>
              session == None || (session == old(session) && old(runs)[r].ctxDone && !outcome.failed)
      ensures outcome == Unfinished ==> Recorded(patience)
    {
      if runs[r].ctxDone {
        mu := Aborting(r, true);
        Record(before, a);
        var kept: bool;
        outcome, kept := CancelAndDrain(r, patience);
      } else {
        CloseSession();
        Return(r, true);
        Record(before, a);
        outcome := Finished(true);
      }
    }

    /** A chunk has been read and the client wants deltas. */
    method Deliver(r: nat, chunk: Bytes, patience: nat) returns (stop: bool, outcome: Outcome)
      requires Valid() && mu == Delivering(r, chunk) && r < |runs|
      modifies this
      ensures Valid() && old(history) <= history
      ensures !stop ==> mu == Reading(r) && session == old(session) && r < |runs|
                        && runs[r].events == old(runs)[r].events + [Delta(chunk)] && runs[r].text == old(runs)[r].text
      ensures stop ==> Stopped(r, outcome)
      ensures if stop then outcome == Unfinished ==> Recorded(patience) else Recorded(0)
    {
      HolderFacts(r);
      Interleave(r);
      stop := SendChunk(r, chunk);
      outcome := Unfinished;
      if stop {
        var kept: bool;
        outcome, kept := CancelAndDrain(r, patience);
      }
    }

    /** A delta, unless the context has ended. */
    method SendChunk(r: nat, chunk: Bytes) returns (stop: bool)
      requires Valid() && mu == Delivering(r, chunk) && r < |runs|
      modifies this
      ensures Valid() && Recorded(0) && session == old(session) && r < |runs|
      ensures stop == (!fate(old(now)) && old(runs)[r].ctxDone)
      ensures if stop then mu == Aborting(r, false)
              else mu == Reading(r) && runs[r].events == old(runs)[r].events + [Delta(chunk)]
                   && runs[r].text == old(runs)[r].text
    {
      ghost var before := Abs();
      stop := ContextWins(r);
      if stop {
        mu := Aborting(r, false);
      } else {
        SendEvent(r, Delta(chunk));
        mu := Reading(r);
      }
      Record(before, SendDelta(!stop));
    }

    /** The frame o has just been taken off the channel and the step is still to be recorded. */
    ghost predicate Dispatching(r: nat, o: Output, before: State) reads this {
      && At(before) && r < |runs| && mu == Reading(r) && session.Some?
      && o.Item? && Apply(config, before, ReadFrame) == Some(Consume(config, Abs(), r, o))
      && HonestStep(config, before, ReadFrame, fate(now))
    }

    /** A chunk has been added to the text, and to the events if the client wants deltas. */
    twostate predicate Taken(r: nat, text: Bytes)
      requires r < |old(runs)|
      reads this
    {
      && mu == Reading(r) && session == old(session) && r < |runs| && runs[r].text == old(runs)[r].text + text
      && runs[r].events == old(runs)[r].events + if old(runs)[r].stream then [Delta(text)] else []
    }

    method TakeChunk(r: nat, o: Output, patience: nat, ghost before: State) returns (stop: bool, outcome: Outcome)
      requires Dispatching(r, o, before) && o.frame.Chunk?
      modifies this
      ensures Valid() && old(history) <= history
      ensures !stop ==> Taken(r, o.frame.text)
      ensures stop ==> old(runs)[r].stream && Stopped(r, outcome)
      ensures if stop then outcome == Unfinished ==> Recorded(patience) else Recorded(1)
    {
      stop, outcome := false, Unfinished;
      runs := runs[r := runs[r].(text := runs[r].text + o.frame.text)];
      if runs[r].stream {
        mu := Delivering(r, o.frame.text);
        Record(before, ReadFrame);
        stop, outcome := Deliver(r, o.frame.text, patience);
      } else {
        Record(before, ReadFrame);
      }
    }

    /** The session is kept; the client is told the text read so far, or that the run was cancelled. */
    method TakeCompleted(r: nat, o: Output, ghost before: State) returns (outcome: Outcome)
      requires Dispatching(r, o, before) && o.frame.Completed?
      modifies this
      ensures Valid() && old(history) <= history && outcome == Finished(false) && Ended(r, false)
              && session == old(session)
      ensures Reported(r, if o.frame.reason == 3 then CancelledEvent else CompletedEvent(old(runs)[r].text))
    {
      runs := runs[r := runs[r].(generated := Some(o.total))];
      mu := Reporting(r, if o.frame.reason == 3 then CancelledEvent else CompletedEvent(runs[r].text));
      Record(before, ReadFrame);
      outcome := Report(r);
    }

    /** The session is kept unless the error is fatal. */
    method TakeError(r: nat, o: Output, ghost before: State) returns (outcome: Outcome)
      requires Dispatching(r, o, before) && o.frame.Error?
      modifies this
      ensures Valid() && old(history) <= history && outcome == Finished(false) && Ended(r, false)
      ensures session == (if IsFatal(o.frame.code) then None else old(session)) && Reported(r, ErrorEvent)
    {
      NoteError(r, o, before);
      outcome := Report(r);
    }

    /** After a fatal error the process is not used again. */
    method NoteError(r: nat, o: Output, ghost before: State)
      requires Dispatching(r, o, before) && o.frame.Error?
      modifies this
      ensures Valid() && old(history) <= history && mu == Reporting(r, ErrorEvent) && runs == old(runs)
      ensures session == if IsFatal(o.frame.code) then None else old(session)
    {
      if IsFatal(o.frame.code) {
        CloseSession();
      }
      mu := Reporting(r, ErrorEvent);
      Record(before, ReadFrame);
    }

    /** Nothing but Chunk, Completed and Error is expected here. */
    method TakeReady(r: nat, o: Output, ghost before: State) returns (outcome: Outcome)
      requires Dispatching(r, o, before) && o.frame.Ready?
      modifies this
      ensures Valid() && old(history) <= history && outcome == Finished(true) && Ended(r, true) && session == None
    {
      CloseSession();
      Return(r, true);
      Record(before, ReadFrame);
      outcome := Finished(true);
    }

    /** The switch on the frame's tag. */
    method Dispatch(r: nat, o: Output, patience: nat, ghost before: State) returns (stop: bool, outcome: Outcome)
      requires Dispatching(r, o, before)
      modifies this
      ensures Valid() && old(history) <= history
      ensures !stop ==> o.frame.Chunk? && Taken(r, o.frame.text)
      ensures stop ==> Stopped(r, outcome)
      ensures o.frame.Completed? ==>
                && stop && outcome == Finished(false) && session == old(session)
                && Reported(r, if o.frame.reason == 3 then CancelledEvent else CompletedEvent(old(runs)[r].text))
      ensures o.frame.Error? ==>
                && stop && outcome == Finished(false) && Reported(r, ErrorEvent)
                && session == if IsFatal(o.frame.code) then None else old(session)
      ensures o.frame.Ready? ==> stop && outcome == Finished(true) && session == None
      ensures if stop then outcome == Unfinished ==> Recorded(patience) else Recorded(1)
    {
      stop := true;
      match o.frame
      case Chunk(_) => stop, outcome := TakeChunk(r, o, patience, before);
      case Completed(_, _, _) => outcome := TakeCompleted(r, o, before);
      case Error(_, _) => outcome := TakeError(r, o, before);
      case Ready => outcome := TakeReady(r, o, before);
    }

    /** One turn of the frame loop of `run`. */
    method ReadOne(r: nat, patience: nat) returns (stop: bool, outcome: Outcome)
      requires Valid() && mu == Reading(r)
      modifies this
      ensures Valid() && old(history) <= history
      ensures !stop ==> mu == Reading(r)
      ensures stop ==> Stopped(r, outcome)
      ensures if stop then outcome == Unfinished ==> Recorded(patience) else Recorded(1)
    {
      stop, outcome := true, Unfinished;
      Interleave(r);
      HolderFacts(r);
      ghost var before := Abs();
      var expired := ContextWins(r);
      var x := sessions[session.value];
      if expired || (x.stdout == [] && runs[r].ctxDone && !StreamOver(x)) {
        outcome := FailRead(r, patience, before, ReadExpired);
      } else if x.stdout != [] {
        stop, outcome := TakeFrame(r, patience);
      } else if StreamOver(x) {
        outcome := FailRead(r, patience, before, ReadEnd);
      } else {
        stop := false;
        Record(before, Wait);
      }
    }

    /** There is something on the channel. */
    method TakeFrame(r: nat, patience: nat) returns (stop: bool, outcome: Outcome)
      requires Valid() && mu == Reading(r) && r < |runs|
      requires session.Some? && session.value < |sessions| && sessions[session.value].stdout != []
      requires fate(now) || !runs[r].ctxDone
      modifies this
      ensures Valid() && old(history) <= history
      ensures !stop ==> mu == Reading(r)
      ensures stop ==> Stopped(r, outcome)
      ensures if stop then outcome == Unfinished ==> Recorded(patience) else Recorded(1)
    {
      ghost var before := Abs();
      var x := sessions[session.value];
      var o := x.stdout[0];
      sessions := sessions[session.value := Pop(x)];
      if o.Broken? {
        stop := true;
        outcome := FailRead(r, patience, before, ReadFrame);
      } else {
        stop, outcome := Dispatch(r, o, patience, before);
      }
    }

    /** From the Generate on stdin to the end of `run`. */
    method Serve(r: nat, patience: nat) returns (outcome: Outcome)
      requires Valid() && mu == Sending(r)
      modifies this
      ensures Valid() && old(history) <= history && Stopped(r, outcome)
      ensures outcome == Unfinished ==> Recorded(patience)
    {
      Interleave(r);
      var written := WriteRequest(r);
      if !written {
        return Finished(true);
      }
      var left, stop := patience, false;
      outcome := Unfinished;
      while left > 0 && !stop
        invariant Valid() && old(history) <= history
        invariant if stop then Stopped(r, outcome) else mu == Reading(r) && outcome == Unfinished
        invariant left <= patience && (!stop ==> Recorded(patience - left + 1))
        invariant stop && outcome == Unfinished ==> Recorded(patience)
      {
        left := left - 1;
        stop, outcome := ReadOne(r, left);
        if !stop {
          outcome := Unfinished;
        }
      }
    }

    /** `run` for request r, which has the mutex from the first statement to the last. */
    method Run(r: nat, patience: nat) returns (outcome: Outcome)
      requires Valid() && mu == Free && r < |runs| && runs[r].state == Called
      modifies this
      ensures Valid() && (exists spawned :: old(history) + [BeginRun(r, spawned)] <= history)
      ensures Stopped(r, outcome)
      ensures outcome.Finished? && session.Some? ==> session.value < |sessions| && Quiet(sessions[session.value])
      ensures outcome == Unfinished ==> Recorded(patience)
    {
      BeginSession(r);
      if mu == Free {
        RestFacts();
        return Finished(true);
      }
      HolderStepsGrow(old(history), history);
      outcome := RunBegun(r, patience);
      if outcome.Finished? {
        RestFacts();
      }
    }

    /** The Generate; a runner that cannot be written to is closed. */
    method WriteRequest(r: nat) returns (written: bool)
      requires Valid() && mu == Sending(r)
      modifies this
      ensures Valid() && Recorded(1) && written == fate(old(now))
      ensures if written then mu == Reading(r) && session == old(session) else Ended(r, true) && session == None
    {
      HolderFacts(r);
      ghost var before := Abs();
      written := fate(now);
      if written {
        var id := session.value;
        sessions := sessions[id := sessions[id].(stdin := sessions[id].stdin + [Generate(r)])];
        mu := Reading(r);
      } else {
        CloseSession();
        Return(r, true);
      }
      Record(before, WriteGenerate(written));
    }

    /** From `started` on. */
    method RunBegun(r: nat, patience: nat) returns (outcome: Outcome)
      requires Valid() && mu == Begun(r)
      modifies this
      ensures Valid() && old(history) <= history && Stopped(r, outcome)
      ensures outcome == Unfinished ==> Recorded(patience)
    {
      Interleave(r);
      var ended := Announce(r);
      if ended {
        return Finished(false);
      }
      outcome := Serve(r, patience);
    }

    /** The first event, unless the context has ended. */
    method Announce(r: nat) returns (ended: bool)
      requires Valid() && mu == Begun(r)
      modifies this
      ensures Valid() && Recorded(0)
      ensures ended == (!fate(old(now)) && r < |old(runs)| && old(runs)[r].ctxDone)
      ensures if ended then Ended(r, false) else mu == Sending(r)
    {
      HolderFacts(r);
      ghost var before := Abs();
      ended := ContextWins(r);
      if ended {
        Return(r, false);
        Record(before, SendStarted(false));
      } else {
        SendEvent(r, Started(runs[r].model));
        mu := Sending(r);
        Record(before, SendStarted(true));
      }
    }

    /** Everything `run` does before its first event. */
    method BeginSession(r: nat)
      requires Valid() && mu == Free && r < |runs| && runs[r].state == Called
      modifies this
      ensures Valid() && (exists spawned :: old(history) + [BeginRun(r, spawned)] <= history)
      ensures mu == Begun(r) || Ended(r, true)
    {
      TakeMutex(r);
      if mu.Starting? {
        AwaitReady();
      }
    }

    /** Up to the point where a new process would have to say Ready. */
    method TakeMutex(r: nat)
      requires Valid() && mu == Free && r < |runs| && runs[r].state == Called
      modifies this
      ensures Valid() && (exists spawned :: old(history) + [BeginRun(r, spawned)] <= history)
      ensures mu == Begun(r) || (mu.Starting? && mu.why == ForRun(r)) || Ended(r, true)
    {
      ghost var before := Abs();
      var spawned := EnterRun(r);
      Record(before, BeginRun(r, spawned));
      assert old(history) + [BeginRun(r, spawned)] <= history;
    }

    method EnterRun(r: nat) returns (spawned: bool)
      requires mu == Free && r < |runs|
      modifies `sessions, `session, `epoch, `timer, `mu, `runs
      ensures Abs() == RunnerMachine.SessionFor(Entered(old(Abs()), r), old(runs[r].model), ForRun(r), spawned)
      ensures spawned == (fate(now) && NeedsStart(old(Abs()), old(runs[r].model)))
      ensures mu == Begun(r) || (mu.Starting? && mu.why == ForRun(r)) || Ended(r, true)
    {
      runs := runs[r := runs[r].(state := Holding)];
      epoch := epoch + 1;
      timer := None;
      spawned := SessionFor(runs[r].model, ForRun(r));
    }

    /* ---------- while nobody here has the mutex ---------- */

    /** Where others have got to while the mutex may be theirs. */
    ghost predicate Ahead(t: State, clock: nat, steps: seq<Action>) reads this {
      && history <= steps && clock == |steps|
      && Execute(config, INITIAL, steps) == Some(t) && Honest(config, fate, steps)
    }

    method StepAhead(t: State, clock: nat, ghost steps: seq<Action>)
      returns (u: State, later: nat, ghost more: seq<Action>)
      requires Ahead(t, clock, steps)
      ensures Ahead(u, later, more)
    {
      u, later, more := t, clock, steps;
      var a: Action := *;
      var next := Apply(config, t, a);
      if next.Some? && HonestStep(config, t, a, fate(clock)) {
        ExecuteAppend(config, INITIAL, steps, a);
        HonestAppend(config, fate, steps, t, a);
        u, later, more := next.value, clock + 1, steps + [a];
      }
    }

    /** Others let go of the mutex in state t. */
    method Adopt(t: State, clock: nat, ghost steps: seq<Action>)
      requires Ahead(t, clock, steps) && t.lock == Free
      modifies this
      ensures Valid() && mu == Free && history == steps
    {
      sessions, session, epoch, timer := t.sessions, t.current, t.epoch, t.timer;
      callbacks, mu, runs := t.callbacks, t.lock, t.runs;
      history, now := steps, clock;
    }

    /** Other requests, cooldowns and processes do anything at all, until the mutex is free once more. */
    method Others()
      requires Valid() && mu == Free
      modifies this
      ensures Valid() && mu == Free && old(history) <= history
    {
      var t, clock, n: nat := Abs(), now, *;
      ghost var steps := history;
      while n > 0
        invariant Valid() && mu == Free && old(history) <= history && Ahead(t, clock, steps)
      {
        t, clock, steps := StepAhead(t, clock, steps);
        if t.lock == Free {
          Adopt(t, clock, steps);
        }
        n := n - 1;
      }
    }

    /* ---------- Generate's probes, Close and the cooldown function ---------- */

    /** The locked part of one turn of the loop in Generate: it fails exactly when there is no session
        afterwards. */
    method Probe(model: string) returns (ok: bool)
      requires Valid() && mu == Free
      modifies this
      ensures Valid() && old(history) <= history && mu == Free
      ensures ProbeSpan(history, |old(history)|, |history|, model)
      ensures if ok then session.Some? && session.value < |sessions| && sessions[session.value].model == model
              else session == None
      ensures ok <==> CanStart(config, fate, history, |old(history)|, |history|, model)
      ensures !NeedsStart(old(Abs()), model) ==> ok && session == old(session) && sessions == old(sessions)
    {
      BeginProbe(model);
      if mu.Starting? {
        AwaitReady();
      }
      ok := session.Some?;
      assert history[..|history|] == history;
      ProbeFindsIff(config, fate, history, |old(history)|, |history|, model);
    }

    method BeginProbe(model: string)
      requires Valid() && mu == Free
      modifies this
      ensures Valid() && exists spawned :: history == old(history) + [Action.Probe(model, spawned)]
      ensures if mu == Free then session.Some? ==> session.value < |sessions| && sessions[session.value].model == model
              else mu.Starting? && mu.why == ForProbe && mu.id < |sessions| && sessions[mu.id].model == model
      ensures !NeedsStart(old(Abs()), model) ==>
                mu == Free && session == old(session) && session.Some? && sessions == old(sessions)
    {
      ghost var before := Abs();
      timer := None;
      var spawned := SessionFor(model, ForProbe);
      Record(before, Action.Probe(model, spawned));
    }

    method CloseProvider()
      requires Valid() && mu == Free
      modifies this
      ensures Valid() && old(history) <= history && mu == Free && session == None && timer == None
    {
      ghost var before := Abs();
      timer := None;
      CloseSession();
      Record(before, Close);
    }

    /** The function a cooldown timer of epoch e calls. */
    method CooldownFires(e: nat)
      requires Valid() && mu == Free && e in callbacks
      modifies this
      ensures Valid() && old(history) <= history && mu == Free
      ensures e != old(epoch) ==> session == old(session) && sessions == old(sessions)
      ensures session == old(session) || session == None
              || (session.value < |sessions| && config.resident == Some(sessions[session.value].model))
    {
      ghost var before := Abs();
      InvariantOf(before);
      var spawned := SwapOut(e);
      Record(before, Fire(e, spawned));
      if mu.Starting? {
        AwaitReady();
      }
    }

    /** The locked part: for the current epoch another model's process is closed and the resident's started. */
    method SwapOut(e: nat) returns (spawned: bool)
      requires mu == Free && (session.Some? ==> session.value < |sessions|)
      modifies `sessions, `session, `callbacks, `mu, `runs
      ensures Abs() == Cooldown(config, old(Abs()).(callbacks := old(callbacks) - {e}), e, spawned)
      ensures spawned == (fate(now) && Swaps(config, old(Abs()).(callbacks := old(callbacks) - {e}), e))
      ensures mu == Free || (mu.Starting? && mu.why == ForCooldown)
      ensures e != epoch ==> session == old(session) && sessions == old(sessions) && mu == Free
      ensures mu == Free ==> session == old(session) || session == None
    {
      callbacks := callbacks - {e};
      spawned := false;
      if e == epoch && session.Some? && sessions[session.value].model != config.residentName && config.resident.Some? {
        CloseSession();
        spawned := StartSession(config.resident.value, ForCooldown);
      }
    }
  }
}
