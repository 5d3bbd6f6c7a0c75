/**
 Which step the code takes, and not only which it may take: given what the world does at a moment, the
 holder of the mutex has no choice. `fate(i)` says whether the world is kind at the i-th step: the process
 can be started, the write goes through, no timeout has fired, the select between an ended context and
 something that is ready goes to the latter.
 */
module RunnerHonest {
  import opened Common
  import opened RunnerFrames
  import opened RunnerMachine
  import opened RunnerSafety

  /** Nothing will come any more. */
  predicate StreamOver(x: Session) { x.stdout == [] && (x.deaf || x.process == Gone) }

  /** The first thing to be read is Ready. */
  predicate ReadyWaits(s: State) {
    && s.lock.Starting? && s.lock.id < |s.sessions| && s.sessions[s.lock.id].stdout != []
    && IsReadyItem(s.sessions[s.lock.id].stdout[0])
  }

  predicate IsReadyItem(o: Output) { o.Item? && o.frame == Ready }

  predicate Expired(s: State, r: nat) { r < |s.runs| && s.runs[r].ctxDone }

  /** Something is there to be read by the holder. */
  predicate Readable(s: State) { Held(s).Some? && Held(s).value.stdout != [] }

  /** The step the holder of the mutex takes. A wait that has a time limit ends with nothing to read only
      when the limit is reached or the stream ends. */
  function NextStep(s: State, kind: bool): Option<Action> {
    match s.lock
    case Free => None
    case Starting(id, _) =>
      Some(if kind && id < |s.sessions| && s.sessions[id].stdout != [] then AwaitReady else AbandonStart)
    case Begun(r) => Some(SendStarted(kind || !Expired(s, r)))
    case Sending(_) => Some(WriteGenerate(kind))
    case Reading(r) =>
      Some(if Expired(s, r) && (!kind || (!Readable(s) && !(Held(s).Some? && StreamOver(Held(s).value))))
           then ReadExpired
           else if Readable(s) then ReadFrame
           else if Held(s).Some? && StreamOver(Held(s).value) then ReadEnd
           else Wait)
    case Delivering(r, _) => Some(SendDelta(kind || !Expired(s, r)))
    case Aborting(_, _) => Some(WriteCancel(kind))
    case Draining(_, _) => Some(if kind && Readable(s) then DrainFrame else DrainStop)
    case Reporting(r, _) => Some(SendFinal(kind || !Expired(s, r)))
  }

  predicate NeedsStart(s: State, model: string) { !(Held(s).Some? && Held(s).value.model == model) }

  /** The cooldown function of epoch e has something to do. */
  predicate Swaps(c: Config, s: State, e: nat) {
    e == s.epoch && Held(s).Some? && Held(s).value.model != c.residentName && c.resident.Some?
  }

  predicate HonestStep(c: Config, s: State, a: Action, kind: bool) {
    if OfHolder(a) then NextStep(s, kind) == Some(a)
    else match a
         case BeginRun(r, spawned) => r < |s.runs| ==> spawned == (kind && NeedsStart(s, s.runs[r].model))
         case Probe(model, spawned) => spawned == (kind && NeedsStart(s, model))
         case Fire(e, spawned) => spawned == (kind && Swaps(c, s, e))
         case _ => true
  }

  /** Every step of a history was the one that was called for. */
  ghost predicate Honest(c: Config, fate: nat -> bool, h: seq<Action>) {
    h == [] ||
    var n := |h| - 1;
    && Honest(c, fate, h[..n]) && Execute(c, INITIAL, h[..n]).Some?
    && HonestStep(c, Execute(c, INITIAL, h[..n]).value, h[n], fate(n))
  }

  lemma HonestAppend(c: Config, fate: nat -> bool, h: seq<Action>, s: State, a: Action)
    requires Honest(c, fate, h) && Execute(c, INITIAL, h) == Some(s) && HonestStep(c, s, a, fate(|h|))
    ensures Honest(c, fate, h + [a])
  {
    assert (h + [a])[..|h|] == h;
  }

  lemma {:induction false} HonestPrefix(c: Config, fate: nat -> bool, h: seq<Action>, n: nat)
    requires Honest(c, fate, h) && n <= |h|
    ensures Honest(c, fate, h[..n])
    decreases |h| - n
  {
    if n == |h| {
      assert h[..n] == h;
    } else {
      HonestPrefix(c, fate, h, n + 1);
      assert h[..n + 1][..n] == h[..n];
    }
  }

  lemma HonestAt(c: Config, fate: nat -> bool, h: seq<Action>, n: nat)
    requires Honest(c, fate, h) && n < |h|
    ensures Execute(c, INITIAL, h[..n]).Some?
    ensures HonestStep(c, Execute(c, INITIAL, h[..n]).value, h[n], fate(n))
  {
    HonestPrefix(c, fate, h, n + 1);
    assert h[..n + 1][..n] == h[..n];
  }

  /** How many steps the holders of the mutex have taken. */
  function HolderSteps(h: seq<Action>): nat {
    if h == [] then 0 else HolderSteps(h[..|h| - 1]) + if OfHolder(h[|h| - 1]) then 1 else 0
  }

  lemma HolderStepsAppend(h: seq<Action>, a: Action)
    ensures HolderSteps(h + [a]) == HolderSteps(h) + if OfHolder(a) then 1 else 0
  {
    assert (h + [a])[..|h|] == h;
  }

  lemma {:induction false} HolderStepsGrow(h: seq<Action>, later: seq<Action>)
    requires h <= later
    ensures HolderSteps(h) <= HolderSteps(later)
    decreases |later|
  {
    if h != later {
      HolderStepsGrow(h, later[..|later| - 1]);
    }
  }

  /* ---------- one probe ---------- */

  /** Steps of the processes, contexts and requests that need no mutex. */
  predicate Outside(a: Action) { a.ProcessStep? || a.Expire? || a.CallRun? || a.RejectInput? || a.SendError? }

  /** h[start..end] is one probe for a model: the step that takes the mutex and, if a process has to be
      started, whatever happens outside the mutex up to the step that ends the wait for Ready. */
  predicate ProbeSpan(h: seq<Action>, start: nat, end: nat, model: string) {
    && start < end <= |h| && h[start].Probe? && h[start].model == model
    && (end == start + 1
        || ((h[end - 1].AwaitReady? || h[end - 1].AbandonStart?) && forall i :: start < i < end - 1 ==> Outside(h[i])))
  }

  lemma {:induction false} ExecuteShorter(c: Config, s: State, h: seq<Action>, n: nat)
    requires n < |h| && Execute(c, s, h[..n + 1]).Some?
    ensures Execute(c, s, h[..n]).Some?
    ensures Apply(c, Execute(c, s, h[..n]).value, h[n]) == Execute(c, s, h[..n + 1])
    decreases n
  {
    if n > 0 {
      assert h[..n + 1][1..] == h[1..][..n] && h[..n][1..] == h[1..][..n - 1];
      ExecuteShorter(c, Apply(c, s, h[0]).value, h[1..], n - 1);
    } else {
      assert h[..1] == [h[0]] && [h[0]][1..] == [];
    }
  }

  lemma OutsideKeepsLock(c: Config, s: State, a: Action)
    requires Outside(a) && Apply(c, s, a).Some?
    ensures var t := Apply(c, s, a).value;
            && t.lock == s.lock && t.current == s.current && |t.sessions| == |s.sessions|
            && forall i :: 0 <= i < |s.sessions| ==> t.sessions[i].model == s.sessions[i].model
  {
  }

  /** The mutex is held from the first step of a probe to the last, so the last is where it lets go. */
  lemma {:induction false} ProbeHoldsMutex(c: Config, h: seq<Action>, start: nat, end: nat, model: string, e: nat)
    requires ProbeSpan(h, start, end, model) && start < e < end && Execute(c, INITIAL, h[..end]).Some?
    ensures Execute(c, INITIAL, h[..e]).Some? && Execute(c, INITIAL, h[..e]).value.lock.Starting?
    decreases end - e
  {
    if e < end - 1 {
      ProbeHoldsMutex(c, h, start, end, model, e + 1);
      ExecuteShorter(c, INITIAL, h, e);
      OutsideKeepsLock(c, Execute(c, INITIAL, h[..e]).value, h[e]);
    } else {
      ExecuteShorter(c, INITIAL, h, e);
    }
  }

  /** While the process is waited for, nothing changes but what it writes. */
  predicate WaitsFor(s: State, model: string) {
    && s.lock.Starting? && s.lock.why == ForProbe && s.current == None
    && s.lock.id < |s.sessions| && s.sessions[s.lock.id].model == model
  }

  lemma {:induction false} StillWaits(c: Config, h: seq<Action>, start: nat, end: nat, model: string, e: nat)
    requires ProbeSpan(h, start, end, model) && start < e < end && Execute(c, INITIAL, h[..end]).Some?
    requires Execute(c, INITIAL, h[..start + 1]).Some? && WaitsFor(Execute(c, INITIAL, h[..start + 1]).value, model)
    ensures Execute(c, INITIAL, h[..e]).Some? && WaitsFor(Execute(c, INITIAL, h[..e]).value, model)
    decreases e
  {
    ProbeHoldsMutex(c, h, start, end, model, e);
    if start + 1 < e {
      StillWaits(c, h, start, end, model, e - 1);
      ExecuteShorter(c, INITIAL, h, e - 1);
      OutsideKeepsLock(c, Execute(c, INITIAL, h[..e - 1]).value, h[e - 1]);
    }
  }

  /** The circumstances in which a probe for a model succeeds: its session is there already, or the process
      can be started and the first thing it says, before the time is up, is Ready. */
  ghost predicate CanStart(c: Config, fate: nat -> bool, h: seq<Action>, start: nat, end: nat, model: string) {
    && start < end <= |h| && Execute(c, INITIAL, h[..start]).Some?
    && (!NeedsStart(Execute(c, INITIAL, h[..start]).value, model)
        || (fate(start) && fate(end - 1) && start + 1 < end
            && Execute(c, INITIAL, h[..end - 1]).Some? && ReadyWaits(Execute(c, INITIAL, h[..end - 1]).value)))
  }

  lemma ProbeBegins(c: Config, s: State, model: string, spawned: bool)
    requires Apply(c, s, Probe(model, spawned)).Some? && NeedsStart(s, model)
    ensures var t := Apply(c, s, Probe(model, spawned)).value;
            if spawned then WaitsFor(t, model) else t.lock == Free && t.current == None
  {
  }

  lemma ProbeReuses(c: Config, s: State, model: string, spawned: bool)
    requires Apply(c, s, Probe(model, spawned)).Some? && !NeedsStart(s, model)
    ensures Apply(c, s, Probe(model, spawned)).value == s.(timer := None)
  {
  }

  lemma ProbeEndsIff(c: Config, s: State, model: string, a: Action, kind: bool)
    requires WaitsFor(s, model) && (a.AwaitReady? || a.AbandonStart?)
    requires Apply(c, s, a).Some? && HonestStep(c, s, a, kind)
    ensures var t := Apply(c, s, a).value;
            && t.lock == Free
            && if kind && ReadyWaits(s) then Held(t).Some? && Held(t).value.model == model else t.current == None
  {
  }

  lemma ReuseIsShort(c: Config, h: seq<Action>, start: nat, end: nat, model: string)
    requires ProbeSpan(h, start, end, model)
    requires Execute(c, INITIAL, h[..end]).Some? && Execute(c, INITIAL, h[..start]).Some?
    requires !NeedsStart(Execute(c, INITIAL, h[..start]).value, model)
    ensures end == start + 1
    ensures Execute(c, INITIAL, h[..end]).value == Execute(c, INITIAL, h[..start]).value.(timer := None)
  {
    BeginningExecutes(c, h, start, end);
    ExecuteShorter(c, INITIAL, h, start);
    ProbeReuses(c, Execute(c, INITIAL, h[..start]).value, model, h[start].spawned);
    if start + 1 < end {
      ProbeHoldsMutex(c, h, start, end, model, start + 1);
    }
  }

  /** A process that is started is waited for up to the last step. */
  lemma WaitsToTheEnd(c: Config, fate: nat -> bool, h: seq<Action>, start: nat, end: nat, model: string)
    requires Honest(c, fate, h) && ProbeSpan(h, start, end, model) && start + 1 < end
    requires Execute(c, INITIAL, h[..end]).Some? && Execute(c, INITIAL, h[..start]).Some?
    requires NeedsStart(Execute(c, INITIAL, h[..start]).value, model)
    ensures Execute(c, INITIAL, h[..end - 1]).Some? && fate(start)
            && WaitsFor(Execute(c, INITIAL, h[..end - 1]).value, model)
  {
    ProbeHoldsMutex(c, h, start, end, model, start + 1);
    WaitBegins(c, fate, h, start, model);
    StillWaits(c, h, start, end, model, end - 1);
  }

  lemma WaitBegins(c: Config, fate: nat -> bool, h: seq<Action>, start: nat, model: string)
    requires Honest(c, fate, h) && start < |h| && h[start].Probe? && h[start].model == model
    requires Execute(c, INITIAL, h[..start]).Some? && NeedsStart(Execute(c, INITIAL, h[..start]).value, model)
    requires Execute(c, INITIAL, h[..start + 1]).Some? && Execute(c, INITIAL, h[..start + 1]).value.lock.Starting?
    ensures fate(start) && WaitsFor(Execute(c, INITIAL, h[..start + 1]).value, model)
  {
    ExecuteShorter(c, INITIAL, h, start);
    HonestAt(c, fate, h, start);
    ProbeBegins(c, Execute(c, INITIAL, h[..start]).value, model, h[start].spawned);
  }

  lemma StartIsAwaited(c: Config, fate: nat -> bool, h: seq<Action>, start: nat, end: nat, model: string)
    requires Honest(c, fate, h) && ProbeSpan(h, start, end, model) && start + 1 < end
    requires Execute(c, INITIAL, h[..end]).Some? && Execute(c, INITIAL, h[..start]).Some?
    requires NeedsStart(Execute(c, INITIAL, h[..start]).value, model)
    ensures Execute(c, INITIAL, h[..end - 1]).Some? && fate(start)
    ensures var s, t := Execute(c, INITIAL, h[..end - 1]).value, Execute(c, INITIAL, h[..end]).value;
            if fate(end - 1) && ReadyWaits(s) then Held(t).Some? && Held(t).value.model == model else t.current == None
  {
    WaitsToTheEnd(c, fate, h, start, end, model);
    ExecuteShorter(c, INITIAL, h, end - 1);
    HonestAt(c, fate, h, end - 1);
    ProbeEndsIff(c, Execute(c, INITIAL, h[..end - 1]).value, model, h[end - 1], fate(end - 1));
  }

  /** What a probe finds is decided by the circumstances alone. */
  lemma ProbeFindsIff(c: Config, fate: nat -> bool, h: seq<Action>, start: nat, end: nat, model: string)
    requires Honest(c, fate, h) && ProbeSpan(h, start, end, model)
    requires Execute(c, INITIAL, h[..end]).Some? && Execute(c, INITIAL, h[..end]).value.lock == Free
    ensures var t := Execute(c, INITIAL, h[..end]).value;
            if CanStart(c, fate, h, start, end, model) then Held(t).Some? && Held(t).value.model == model
            else t.current == None
  {
    HonestAt(c, fate, h, start);
    if !NeedsStart(Execute(c, INITIAL, h[..start]).value, model) {
      ReuseIsShort(c, h, start, end, model);
    } else if start + 1 < end {
      StartIsAwaited(c, fate, h, start, end, model);
    } else {
      ExecuteShorter(c, INITIAL, h, start);
      ProbeBegins(c, Execute(c, INITIAL, h[..start]).value, model, h[start].spawned);
    }
  }

  lemma {:induction false} BeginningExecutes(c: Config, h: seq<Action>, start: nat, end: nat)
    requires start < end <= |h| && Execute(c, INITIAL, h[..end]).Some?
    ensures Execute(c, INITIAL, h[..start + 1]).Some?
    decreases end
  {
    if start + 1 < end {
      ExecuteShorter(c, INITIAL, h, end - 1);
      BeginningExecutes(c, h, start, end - 1);
    }
  }
}
