/**
 The invariant of the runner machine, and that every step keeps it: whatever the interleaving of
 frames, cancellation, drain timeouts, process failures, probes, closes and cooldown callbacks.
 */
module RunnerSafety {
  import opened Common
  import opened Bytes
  import opened RunnerFrames
  import opened RunnerMachine
  import opened RunnerLink

  /* ---------- events of one run ---------- */

  /** Nothing yet, or `started` and then deltas. */
  predicate Open(es: seq<Event>) {
    es == [] || (es[0].Started? && forall k :: 1 <= k < |es| ==> es[k].Delta?)
  }

  predicate Final(e: Event) { e.CompletedEvent? || e.CancelledEvent? || e.ErrorEvent? }

  /** error, or: started delta* (completed | cancelled | error). */
  predicate Ended(es: seq<Event>) {
    es == [ErrorEvent] || (|es| >= 2 && Open(es[..|es| - 1]) && Final(es[|es| - 1]))
  }

  function DeltaText(es: seq<Event>): Bytes {
    if es == [] then []
    else DeltaText(es[..|es| - 1]) + (if es[|es| - 1].Delta? then es[|es| - 1].text else [])
  }

  lemma DeltaTextAppend(es: seq<Event>, e: Event)
    ensures DeltaText(es + [e]) == DeltaText(es) + (if e.Delta? then e.text else [])
  {
    assert (es + [e])[..|es|] == es;
  }

  predicate NoDelta(es: seq<Event>) { forall k :: 0 <= k < |es| ==> !es[k].Delta? }

  /** What a completed run has told its client. */
  predicate CompletionOk(x: Run) {
    x.events != [] && x.events[|x.events| - 1].CompletedEvent? ==>
      var text := x.events[|x.events| - 1].text;
      ValidUtf8(text) && x.generated == Some(text) && (x.stream ==> DeltaText(x.events) == text)
  }

  predicate RunOk(x: Run) {
    && ValidUtf8(x.text)
    && (!x.stream ==> NoDelta(x.events))
    && (x.events != [] && x.events[0].Started? ==> x.events[0].model == x.model)
    && match x.state
       case Called => x.events == [] && x.text == []
       case Holding => Open(x.events)
       case Erring => Open(x.events)
       case Over => (Ended(x.events) || (Open(x.events) && x.ctxDone)) && CompletionOk(x)
  }

  /* ---------- the holder of the mutex ---------- */

  function HolderOf(l: Lock): Option<nat> {
    match l
    case Free => None
    case Starting(_, why) => if why.ForRun? then Some(why.run) else None
    case Begun(r) => Some(r)
    case Sending(r) => Some(r)
    case Reading(r) => Some(r)
    case Delivering(r, _) => Some(r)
    case Aborting(r, _) => Some(r)
    case Draining(r, _) => Some(r)
    case Reporting(r, _) => Some(r)
  }

  predicate RunsOk(runs: seq<Run>, holder: Option<nat>) {
    && (holder.Some? ==> holder.value < |runs|)
    && forall r :: 0 <= r < |runs| ==> RunOk(runs[r]) && (runs[r].state == Holding <==> holder == Some(r))
  }

  /** At most one process is not closed: p.session, or the one being started. */
  predicate SessionsOk(s: State) {
    && (s.current.Some? ==> s.current.value < |s.sessions| && !s.sessions[s.current.value].closed)
    && forall i :: 0 <= i < |s.sessions| ==>
         LinkOk(s.sessions[i]) &&
         (!s.sessions[i].closed ==> s.current == Some(i) || (s.lock.Starting? && s.lock.id == i))
  }

  predicate AtRest(s: State) { Held(s).Some? ==> Quiet(Held(s).value) }

  /** p.session is there and runs the model run r asked for. */
  predicate OwnSession(s: State, r: nat) {
    Held(s).Some? && r < |s.runs| && Held(s).value.model == s.runs[r].model
  }

  /** The text read is what the client has been given, if it gets deltas at all. */
  predicate Told(x: Run, text: Bytes) {
    x.events != [] && (x.stream ==> DeltaText(x.events) == text)
  }

  predicate FinalOk(x: Run, e: Event) {
    Final(e) && (e.CompletedEvent? ==> e.text == x.text && x.generated == Some(x.text))
  }

  predicate StartOk(c: Config, s: State, id: nat, why: Why) {
    && s.current == None && id < |s.sessions| && !s.sessions[id].closed && Fresh(s.sessions[id])
    && match why
       case ForProbe => true
       case ForRun(r) =>
         && r < |s.runs| && s.runs[r].events == [] && s.runs[r].text == []
         && s.sessions[id].model == s.runs[r].model
       case ForCooldown => c.resident == Some(s.sessions[id].model)
  }

  predicate PlaceOk(c: Config, s: State) {
    match s.lock
    case Free => AtRest(s)
    case Starting(id, why) => StartOk(c, s, id, why)
    case Begun(r) => OwnSession(s, r) && Quiet(Held(s).value) && s.runs[r].events == [] && s.runs[r].text == []
    case Sending(r) => OwnSession(s, r) && Quiet(Held(s).value) && Told(s.runs[r], []) && s.runs[r].text == []
    case Reading(r) =>
      && OwnSession(s, r) && Engaged(Held(s).value, r) && InStep(Held(s).value, r, s.runs[r].text)
      && Told(s.runs[r], s.runs[r].text)
    case Delivering(r, t) =>
      && OwnSession(s, r) && Engaged(Held(s).value, r) && InStep(Held(s).value, r, s.runs[r].text)
      && s.runs[r].stream && s.runs[r].events != [] && DeltaText(s.runs[r].events) + t == s.runs[r].text
    case Aborting(r, _) => OwnSession(s, r) && Engaged(Held(s).value, r) && s.runs[r].events != [] && s.runs[r].ctxDone
    case Draining(r, _) => OwnSession(s, r) && Engaged(Held(s).value, r) && s.runs[r].events != [] && s.runs[r].ctxDone
    case Reporting(r, e) => AtRest(s) && r < |s.runs| && Told(s.runs[r], s.runs[r].text) && FinalOk(s.runs[r], e)
  }

  predicate Inv(c: Config, s: State) {
    && SessionsOk(s) && RunsOk(s.runs, HolderOf(s.lock)) && PlaceOk(c, s)
    && forall e :: e in s.callbacks ==> e <= s.epoch
  }

  /* ---------- steps outside the mutex ---------- */

  /** A move of the process behind p.session, whichever stage its link is in. */
  lemma CurrentMoveKeepsPlace(c: Config, s: State, id: nat, m: Move)
    requires Inv(c, s) && s.current == Some(id) && MoveSession(s.sessions[id], m).Some?
    ensures PlaceOk(c, SetSession(s, id, MoveSession(s.sessions[id], m).value))
  {
    var x := s.sessions[id];
    if Quiet(x) {
      MoveKeepsQuiet(x, m);
    }
    var holder := HolderOf(s.lock);
    if holder.Some? && Engaged(x, holder.value) {
      MoveKeepsEngaged(x, holder.value, m);
      if InStep(x, holder.value, s.runs[holder.value].text) {
        MoveKeepsInStep(x, holder.value, s.runs[holder.value].text, m);
      }
    }
  }

  lemma MoveKeepsSessions(c: Config, s: State, id: nat, m: Move)
    requires Inv(c, s) && id < |s.sessions| && MoveSession(s.sessions[id], m).Some?
    ensures SessionsOk(SetSession(s, id, MoveSession(s.sessions[id], m).value))
  {
    MoveKeepsLink(s.sessions[id], m);
  }

  /** A move of a process that is not p.session, perhaps one being started. */
  lemma OtherMoveKeepsPlace(c: Config, s: State, id: nat, m: Move)
    requires Inv(c, s) && id < |s.sessions| && s.current != Some(id) && MoveSession(s.sessions[id], m).Some?
    ensures PlaceOk(c, SetSession(s, id, MoveSession(s.sessions[id], m).value))
  {
    if Fresh(s.sessions[id]) {
      MoveKeepsFresh(s.sessions[id], m);
    }
  }

  lemma ProcessKeepsInv(c: Config, s: State, id: nat, m: Move)
    requires Inv(c, s) && id < |s.sessions| && MoveSession(s.sessions[id], m).Some?
    ensures Inv(c, SetSession(s, id, MoveSession(s.sessions[id], m).value))
  {
    MoveKeepsSessions(c, s, id, m);
    if s.current == Some(id) {
      CurrentMoveKeepsPlace(c, s, id, m);
    } else {
      OtherMoveKeepsPlace(c, s, id, m);
    }
  }

  /** Changing a run nobody holds, or only marking a context as ended. */
  lemma RunChangeKeepsInv(c: Config, s: State, r: nat, x: Run)
    requires Inv(c, s) && r < |s.runs| && RunOk(x) && (x.state == Holding <==> s.runs[r].state == Holding)
    requires HolderOf(s.lock) == Some(r) ==> x == s.runs[r].(ctxDone := x.ctxDone) && (s.runs[r].ctxDone ==> x.ctxDone)
    ensures Inv(c, SetRun(s, r, x))
  {
  }

  lemma ExpireKeepsInv(c: Config, s: State, r: nat)
    requires Inv(c, s) && r < |s.runs|
    ensures Inv(c, SetRun(s, r, s.runs[r].(ctxDone := true)))
  {
    RunChangeKeepsInv(c, s, r, s.runs[r].(ctxDone := true));
  }

  lemma CallKeepsInv(c: Config, s: State, model: string, stream: bool)
    requires Inv(c, s)
    ensures Inv(c, s.(runs := s.runs + [Run(model, stream, false, [], [], None, Called)]))
  {
  }

  lemma ErrorEndsRun(x: Run)
    requires RunOk(x) && x.state == Erring
    ensures RunOk(x.(events := x.events + [ErrorEvent], state := Over))
    ensures x.ctxDone ==> RunOk(x.(state := Over))
  {
    var es := x.events + [ErrorEvent];
    assert es[..|es| - 1] == x.events;
    assert x.events == [] ==> es == [ErrorEvent];
  }

  lemma SendErrorKeepsInv(c: Config, s: State, r: nat, ok: bool)
    requires Inv(c, s) && Apply(c, s, SendError(r, ok)).Some?
    ensures Inv(c, Apply(c, s, SendError(r, ok)).value)
  {
    var x := s.runs[r];
    ErrorEndsRun(x);
    RunChangeKeepsInv(c, s, r, if ok then x.(events := x.events + [ErrorEvent], state := Over) else x.(state := Over));
  }

  /* ---------- sharing steps of the mutex holder ---------- */

  /** Every session is closed but a quiet p.session, whatever the lock says. */
  predicate Settled(s: State) {
    && AtRest(s)
    && (s.current.Some? ==> s.current.value < |s.sessions| && !s.sessions[s.current.value].closed)
    && (forall i :: 0 <= i < |s.sessions| ==> LinkOk(s.sessions[i]) && (!s.sessions[i].closed ==> s.current == Some(i)))
    && (forall e :: e in s.callbacks ==> e <= s.epoch)
  }

  lemma CloseCurrentSettles(c: Config, s: State)
    requires SessionsOk(s) && !s.lock.Starting? && forall e :: e in s.callbacks ==> e <= s.epoch
    ensures var t := CloseCurrent(s);
            && Settled(t) && t.current == None
            && t == s.(sessions := t.sessions, current := None)
  {
  }

  predicate OthersOk(runs: seq<Run>, r: nat) {
    r < |runs| && forall q :: 0 <= q < |runs| && q != r ==> RunOk(runs[q]) && runs[q].state != Holding
  }

  lemma LeaveKeepsInv(c: Config, s: State, r: nat, end: RunState)
    requires Settled(s) && OthersOk(s.runs, r) && end != Holding && RunOk(s.runs[r].(state := end))
    ensures Inv(c, Leave(c, s, r, end))
  {
  }

  function WhyHolder(why: Why): Option<nat> { if why.ForRun? then Some(why.run) else None }

  /** The run or the cooldown a session is wanted for agrees with the model to start. */
  predicate Wanted(c: Config, s: State, model: string, why: Why) {
    && RunsOk(s.runs, WhyHolder(why))
    && match why
       case ForProbe => true
       case ForRun(r) => s.runs[r].events == [] && s.runs[r].text == [] && s.runs[r].model == model
       case ForCooldown => c.resident == Some(model)
  }

  lemma NoSessionKeepsInv(c: Config, s: State, model: string, why: Why)
    requires Settled(s) && s.current == None && Wanted(c, s, model, why)
    ensures Inv(c, NoSession(s, why))
  {
  }

  lemma StartKeepsInv(c: Config, s: State, model: string, why: Why, spawned: bool)
    requires Settled(s) && s.current == None && Wanted(c, s, model, why)
    ensures Inv(c, StartSession(s, model, why, spawned))
  {
    if !spawned {
      NoSessionKeepsInv(c, s, model, why);
    }
  }

  lemma SessionForKeepsInv(c: Config, s: State, model: string, why: Why, spawned: bool)
    requires Settled(s) && s.lock == Free && Wanted(c, s, model, why)
    ensures Inv(c, SessionFor(s, model, why, spawned))
  {
    if !(Held(s).Some? && Held(s).value.model == model) {
      CloseCurrentSettles(c, s);
      StartKeepsInv(c, CloseCurrent(s), model, why, spawned);
    }
  }

  /* ---------- taking the mutex ---------- */

  /** What `run` changes before it looks for a session. */
  function Entered(s: State, r: nat): State
    requires r < |s.runs|
  {
    SetRun(s, r, s.runs[r].(state := Holding)).(epoch := s.epoch + 1, timer := None)
  }

  lemma BeginIs(c: Config, s: State, r: nat, spawned: bool)
    requires Apply(c, s, BeginRun(r, spawned)).Some?
    ensures r < |s.runs| && s.lock == Free && s.runs[r].state == Called
    ensures Apply(c, s, BeginRun(r, spawned)).value == SessionFor(Entered(s, r), s.runs[r].model, ForRun(r), spawned)
  {
  }

  lemma EnteredIsSettled(c: Config, s: State, r: nat)
    requires Inv(c, s) && r < |s.runs| && s.lock == Free && s.runs[r].state == Called
    ensures Settled(Entered(s, r)) && Entered(s, r).lock == Free && Wanted(c, Entered(s, r), s.runs[r].model, ForRun(r))
  {
  }

  lemma BeginKeepsInv(c: Config, s: State, r: nat, spawned: bool)
    requires Inv(c, s) && Apply(c, s, BeginRun(r, spawned)).Some?
    ensures Inv(c, Apply(c, s, BeginRun(r, spawned)).value)
  {
    BeginIs(c, s, r, spawned);
    EnteredIsSettled(c, s, r);
    SessionForKeepsInv(c, Entered(s, r), s.runs[r].model, ForRun(r), spawned);
  }

  lemma ProbeKeepsInv(c: Config, s: State, model: string, spawned: bool)
    requires Inv(c, s) && s.lock == Free
    ensures Inv(c, SessionFor(s.(timer := None), model, ForProbe, spawned))
  {
    SessionForKeepsInv(c, s.(timer := None), model, ForProbe, spawned);
  }

  lemma CloseKeepsInv(c: Config, s: State)
    requires Inv(c, s) && s.lock == Free
    ensures Inv(c, CloseCurrent(s.(timer := None)))
  {
    CloseCurrentSettles(c, s.(timer := None));
  }

  lemma FireKeepsInv(c: Config, s: State, e: nat, spawned: bool)
    requires Inv(c, s) && s.lock == Free
    ensures Inv(c, Cooldown(c, s.(callbacks := s.callbacks - {e}), e, spawned))
  {
    var t := s.(callbacks := s.callbacks - {e});
    if e == s.epoch && Held(t).Some? && Held(t).value.model != c.residentName && c.resident.Some? {
      CloseCurrentSettles(c, t);
      StartKeepsInv(c, CloseCurrent(t), c.resident.value, ForCooldown, spawned);
    }
  }

  /* ---------- starting a process ---------- */

  lemma AbandonKeepsInv(c: Config, s: State)
    requires SessionsOk(s) && s.lock.Starting? && s.lock.id < |s.sessions| && s.current == None
    requires RunsOk(s.runs, HolderOf(s.lock)) && forall e :: e in s.callbacks ==> e <= s.epoch
    ensures Inv(c, AbandonedStart(s))
  {
    var t := SetSession(s, s.lock.id, s.sessions[s.lock.id].(closed := true));
    assert Settled(t);
  }

  lemma AwaitKeepsInv(c: Config, s: State)
    requires Inv(c, s) && ApplyAwaitReady(s).Some?
    ensures Inv(c, ApplyAwaitReady(s).value)
  {
    var id, x := s.lock.id, s.sessions[s.lock.id];
    var t := SetSession(s, id, Pop(x));
    PopKeepsLink(x);
    if IsReady(x.stdout[0]) {
      assert Quiet(Pop(x));
    } else {
      AbandonKeepsInv(c, t);
    }
  }

  /* ---------- sending, reading, draining ---------- */

  lemma SendStartedKeepsInv(c: Config, s: State, ok: bool)
    requires Inv(c, s) && Apply(c, s, SendStarted(ok)).Some?
    ensures Inv(c, Apply(c, s, SendStarted(ok)).value)
  {
    var r := s.lock.run;
    if ok {
      DeltaTextAppend([], Started(s.runs[r].model));
      assert [] + [Started(s.runs[r].model)] == [Started(s.runs[r].model)];
    } else {
      LeaveKeepsInv(c, s, r, Over);
    }
  }

  lemma WriteGenerateKeepsInv(c: Config, s: State, ok: bool)
    requires Inv(c, s) && Apply(c, s, WriteGenerate(ok)).Some?
    ensures Inv(c, Apply(c, s, WriteGenerate(ok)).value)
  {
    var r := s.lock.run;
    if ok {
      WriteGenerateEngages(Held(s).value, r);
    } else {
      CloseCurrentSettles(c, s);
      LeaveKeepsInv(c, CloseCurrent(s), r, Erring);
    }
  }

  /** Whatever state the link is in, discarding the session and leaving is safe. */
  lemma DiscardKeepsInv(c: Config, s: State, r: nat, end: RunState)
    requires SessionsOk(s) && !s.lock.Starting? && RunsOk(s.runs, Some(r))
    requires forall e :: e in s.callbacks ==> e <= s.epoch
    requires end == Erring || (end == Over && s.runs[r].ctxDone && s.runs[r].events != [])
    ensures Inv(c, Leave(c, CloseCurrent(s), r, end))
  {
    CloseCurrentSettles(c, s);
    LeaveKeepsInv(c, CloseCurrent(s), r, end);
  }

  lemma ReadFailedKeepsInv(c: Config, s: State, r: nat)
    requires SessionsOk(s) && s.lock == Reading(r) && RunsOk(s.runs, Some(r))
    requires forall e :: e in s.callbacks ==> e <= s.epoch
    requires OwnSession(s, r) && Engaged(Held(s).value, r) && s.runs[r].events != []
    ensures Inv(c, ReadFailed(c, s, r))
  {
    if !s.runs[r].ctxDone {
      DiscardKeepsInv(c, s, r, Erring);
    }
  }

  lemma ReadChunkKeepsInv(c: Config, s: State)
    requires Inv(c, s) && Apply(c, s, ReadFrame).Some?
    requires Held(s).value.stdout[0].Item? && Held(s).value.stdout[0].frame.Chunk?
    ensures Inv(c, Apply(c, s, ReadFrame).value)
  {
    var r, x := s.lock.run, Held(s).value;
    var text := s.runs[r].text;
    PopKeepsLink(x);
    assert Owned(x.stdout[0]) && FrameOk(x.stdout[0]);
    PopKeepsEngaged(x, r);
    ValidUtf8Concat(text, x.stdout[0].frame.text);
    assert x.stdout[0].total == text + x.stdout[0].frame.text;
    assert InStep(Pop(x), r, text + x.stdout[0].frame.text);
  }

  lemma ReadCompletedKeepsInv(c: Config, s: State)
    requires Inv(c, s) && Apply(c, s, ReadFrame).Some?
    requires Held(s).value.stdout[0].Item? && Held(s).value.stdout[0].frame.Completed?
    ensures Inv(c, Apply(c, s, ReadFrame).value)
  {
    var r, x := s.lock.run, Held(s).value;
    PopKeepsLink(x);
    assert FrameOk(x.stdout[0]);
    PopTerminal(x, r);
    assert x.stdout[0].total == s.runs[r].text;
  }

  lemma ErrorLeavesRest(c: Config, s: State)
    requires Inv(c, s) && s.lock.Reading? && Held(s).Some? && Held(s).value.stdout != []
    requires Held(s).value.stdout[0].Item? && Held(s).value.stdout[0].frame.Error?
    ensures var t := SetHeld(s, Pop(Held(s).value)); SessionsOk(t) && AtRest(t)
  {
    PopKeepsLink(Held(s).value);
    assert Terminal(Held(s).value.stdout[0]);
    PopTerminal(Held(s).value, s.lock.run);
  }

  lemma ReadErrorKeepsInv(c: Config, s: State)
    requires Inv(c, s) && Apply(c, s, ReadFrame).Some?
    requires Held(s).value.stdout[0].Item? && Held(s).value.stdout[0].frame.Error?
    ensures Inv(c, Apply(c, s, ReadFrame).value)
  {
    ErrorLeavesRest(c, s);
    CloseCurrentSettles(c, SetHeld(s, Pop(Held(s).value)));
  }

  lemma ReadKeepsInv(c: Config, s: State)
    requires Inv(c, s) && Apply(c, s, ReadFrame).Some?
    ensures Inv(c, Apply(c, s, ReadFrame).value)
  {
    var r, x := s.lock.run, Held(s).value;
    var o, t := x.stdout[0], SetHeld(s, Pop(x));
    PopKeepsLink(x);
    if o.Broken? {
      PopKeepsEngaged(x, r);
      ReadFailedKeepsInv(c, t, r);
    } else {
      match o.frame
      case Chunk(_) => ReadChunkKeepsInv(c, s);
      case Completed(_, _, _) => ReadCompletedKeepsInv(c, s);
      case Error(_, _) => ReadErrorKeepsInv(c, s);
      case Ready => DiscardKeepsInv(c, t, r, Erring);
    }
  }

  lemma DeltaKeepsRun(x: Run, chunk: Bytes)
    requires RunOk(x) && x.state == Holding && x.stream && x.events != []
    ensures var y := x.(events := x.events + [Delta(chunk)]);
            RunOk(y) && DeltaText(y.events) == DeltaText(x.events) + chunk
  {
    DeltaTextAppend(x.events, Delta(chunk));
  }

  lemma DeltaSentKeepsInv(c: Config, s: State)
    requires Inv(c, s) && s.lock.Delivering?
    ensures var r := s.lock.run;
            Inv(c, SetRun(s, r, s.runs[r].(events := s.runs[r].events + [Delta(s.lock.chunk)])).(lock := Reading(r)))
  {
    DeltaKeepsRun(s.runs[s.lock.run], s.lock.chunk);
  }

  lemma SendDeltaKeepsInv(c: Config, s: State, ok: bool)
    requires Inv(c, s) && Apply(c, s, SendDelta(ok)).Some?
    ensures Inv(c, Apply(c, s, SendDelta(ok)).value)
  {
    if ok {
      DeltaSentKeepsInv(c, s);
    }
  }

  lemma WriteCancelKeepsInv(c: Config, s: State, ok: bool)
    requires Inv(c, s) && Apply(c, s, WriteCancel(ok)).Some?
    ensures Inv(c, Apply(c, s, WriteCancel(ok)).value)
  {
    var r := s.lock.run;
    if ok {
      WriteCancelKeepsEngaged(Held(s).value, r);
    } else {
      DiscardKeepsInv(c, s, r, if s.lock.reports then Erring else Over);
    }
  }

  /** Where a frame is drained. */
  predicate DrainsFrame(s: State) {
    s.lock.Draining? && s.lock.run < |s.runs| && Held(s).Some? && Held(s).value.stdout != []
  }

  lemma DrainChunkKeepsInv(c: Config, s: State)
    requires Inv(c, s) && DrainsFrame(s) && Held(s).value.stdout[0].Item? && Held(s).value.stdout[0].frame.Chunk?
    ensures Inv(c, SetHeld(s, Pop(Held(s).value)))
  {
    PopKeepsLink(Held(s).value);
    assert FrameOk(Held(s).value.stdout[0]);
    PopKeepsEngaged(Held(s).value, s.lock.run);
  }

  lemma DrainedSettles(c: Config, s: State)
    requires Inv(c, s) && DrainsFrame(s) && Held(s).value.stdout[0].Item? && Held(s).value.stdout[0].frame.Completed?
    ensures Settled(SetHeld(s, Pop(Held(s).value)))
  {
    PopKeepsLink(Held(s).value);
    assert FrameOk(Held(s).value.stdout[0]);
    PopTerminal(Held(s).value, s.lock.run);
  }

  lemma DrainBadFrameKeepsInv(c: Config, s: State)
    requires Inv(c, s) && DrainsFrame(s)
    ensures Inv(c, DrainFailed(c, SetHeld(s, Pop(Held(s).value)), s.lock.run, s.lock.reports))
  {
    PopKeepsLink(Held(s).value);
    DiscardKeepsInv(c, SetHeld(s, Pop(Held(s).value)), s.lock.run, if s.lock.reports then Erring else Over);
  }

  lemma DrainCompletedKeepsInv(c: Config, s: State)
    requires Inv(c, s) && DrainsFrame(s) && Held(s).value.stdout[0].Item? && Held(s).value.stdout[0].frame.Completed?
    ensures Inv(c, Leave(c, SetHeld(s, Pop(Held(s).value)), s.lock.run, Over))
  {
    DrainedSettles(c, s);
    LeaveKeepsInv(c, SetHeld(s, Pop(Held(s).value)), s.lock.run, Over);
  }

  lemma DrainKeepsInv(c: Config, s: State)
    requires Inv(c, s) && DrainsFrame(s)
    ensures Inv(c, Drain(c, SetHeld(s, Pop(Held(s).value)), s.lock.run, s.lock.reports, Held(s).value.stdout[0]))
  {
    var o := Held(s).value.stdout[0];
    if o.Item? && o.frame.Chunk? {
      DrainChunkKeepsInv(c, s);
    } else if o.Item? && o.frame.Completed? {
      DrainCompletedKeepsInv(c, s);
    } else {
      DrainBadFrameKeepsInv(c, s);
    }
  }

  /** The last event completes a run's events. */
  lemma FinalEvent(c: Config, s: State)
    requires Inv(c, s) && s.lock.Reporting? && s.lock.run < |s.runs|
    ensures var r, x := s.lock.run, s.runs[s.lock.run];
            var y := x.(events := x.events + [s.lock.final]);
            RunOk(y.(state := Over)) && Settled(SetRun(s, r, y)) && OthersOk(SetRun(s, r, y).runs, r)
  {
    var x := s.runs[s.lock.run];
    var y := x.(events := x.events + [s.lock.final]);
    assert y.events[..|y.events| - 1] == x.events;
    DeltaTextAppend(x.events, s.lock.final);
  }

  lemma SendFinalKeepsInv(c: Config, s: State, ok: bool)
    requires Inv(c, s) && Apply(c, s, SendFinal(ok)).Some?
    ensures Inv(c, Apply(c, s, SendFinal(ok)).value)
  {
    var r := s.lock.run;
    var x := s.runs[r];
    if ok {
      FinalEvent(c, s);
      var y := x.(events := x.events + [s.lock.final]);
      assert SetRun(s, r, y).runs[r] == y;
      LeaveKeepsInv(c, SetRun(s, r, y), r, Over);
    } else {
      LeaveKeepsInv(c, s, r, Over);
    }
  }

  /* ---------- every step, every behaviour ---------- */

  /** Steps of the goroutine that holds the mutex. */
  predicate OfHolder(a: Action) {
    || a.AwaitReady? || a.AbandonStart? || a.SendStarted? || a.WriteGenerate? || a.ReadFrame? || a.ReadEnd?
    || a.ReadExpired? || a.Wait? || a.SendDelta? || a.WriteCancel? || a.DrainFrame? || a.DrainStop? || a.SendFinal?
  }

  lemma HolderStepKeepsInv(c: Config, s: State, a: Action)
    requires Inv(c, s) && OfHolder(a) && Apply(c, s, a).Some?
    ensures Inv(c, Apply(c, s, a).value)
  {
    match a
    case AwaitReady => AwaitKeepsInv(c, s);
    case AbandonStart => AbandonKeepsInv(c, s);
    case SendStarted(ok) => SendStartedKeepsInv(c, s, ok);
    case WriteGenerate(ok) => WriteGenerateKeepsInv(c, s, ok);
    case ReadFrame => ReadKeepsInv(c, s);
    case ReadEnd => ReadFailedKeepsInv(c, s, s.lock.run);
    case ReadExpired => ReadFailedKeepsInv(c, s, s.lock.run);
    case Wait =>
    case SendDelta(ok) => SendDeltaKeepsInv(c, s, ok);
    case WriteCancel(ok) => WriteCancelKeepsInv(c, s, ok);
    case DrainFrame => DrainKeepsInv(c, s);
    case DrainStop => DiscardKeepsInv(c, s, s.lock.run, if s.lock.reports then Erring else Over);
    case SendFinal(ok) => SendFinalKeepsInv(c, s, ok);
  }

  lemma StepKeepsInv(c: Config, s: State, a: Action)
    requires Inv(c, s) && Apply(c, s, a).Some?
    ensures Inv(c, Apply(c, s, a).value)
  {
    match a
    case ProcessStep(id, m) => ProcessKeepsInv(c, s, id, m);
    case Expire(r) => ExpireKeepsInv(c, s, r);
    case CallRun(model, stream) => CallKeepsInv(c, s, model, stream);
    case RejectInput(r) => RunChangeKeepsInv(c, s, r, s.runs[r].(state := Erring));
    case BeginRun(r, spawned) => BeginKeepsInv(c, s, r, spawned);
    case Probe(model, spawned) => ProbeKeepsInv(c, s, model, spawned);
    case SendError(r, ok) => SendErrorKeepsInv(c, s, r, ok);
    case Close => CloseKeepsInv(c, s);
    case Fire(e, spawned) => FireKeepsInv(c, s, e, spawned);
    case _ => HolderStepKeepsInv(c, s, a);
  }

  lemma {:induction false} ExecuteKeepsInv(c: Config, s: State, steps: seq<Action>)
    requires Inv(c, s) && Execute(c, s, steps).Some?
    ensures Inv(c, Execute(c, s, steps).value)
    decreases |steps|
  {
    if steps != [] {
      StepKeepsInv(c, s, steps[0]);
      ExecuteKeepsInv(c, Apply(c, s, steps[0]).value, steps[1..]);
    }
  }

  lemma ReachableInv(c: Config, s: State)
    requires Reachable(c, s)
    ensures Inv(c, s)
  {
    var steps: seq<Action> :| Execute(c, INITIAL, steps) == Some(s);
    ExecuteKeepsInv(c, INITIAL, steps);
  }

  lemma {:induction false} ExecuteAppend(c: Config, s: State, steps: seq<Action>, a: Action)
    requires Execute(c, s, steps).Some?
    ensures Execute(c, s, steps + [a]) == Apply(c, Execute(c, s, steps).value, a)
    decreases |steps|
  {
    if steps == [] {
      assert steps + [a] == [a] && [a][1..] == [];
    } else {
      assert (steps + [a])[1..] == steps[1..] + [a];
      ExecuteAppend(c, Apply(c, s, steps[0]).value, steps[1..], a);
    }
  }

  lemma ReachableStep(c: Config, s: State, a: Action, t: State)
    requires Reachable(c, s) && Apply(c, s, a) == Some(t)
    ensures Reachable(c, t)
  {
    var steps: seq<Action> :| Execute(c, INITIAL, steps) == Some(s);
    ExecuteAppend(c, INITIAL, steps, a);
    assert Execute(c, INITIAL, steps + [a]) == Some(t);
  }
}
