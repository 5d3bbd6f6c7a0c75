/**
 The runner provider and its child processes as one step system.

 `Apply` is a single step: a move of some child process, a context that ends, a step of the
 goroutine that holds the provider's mutex (the `Lock` says where it is), or a goroutine taking
 the mutex to run, probe, close or cool down. A behaviour is any sequence of enabled steps, so
 every interleaving is one. A run is named by its position in `runs`; messages and frames carry
 the run they are about so that misdelivery can be stated.
 */
module RunnerMachine {
  import opened Common
  import opened Bytes
  import opened RunnerFrames

  /** The parts of the configuration the provider consults: whether idle_cooldown is positive,
      model_lifecycle.resident_model as written, and what Registry.Resident gives. */
  datatype Config = Config(cooldown: bool, residentName: string, resident: Option<string>)

  /* ---------- one child process and its two pipes ---------- */

  datatype Message = Generate(run: nat) | Cancel(run: nat)

  /** What the frame channel carries: a frame about a run (or none), with all text the process has
      produced for that run so far; or the error that ends the reader. */
  datatype Output = Item(owner: Option<nat>, frame: Frame, total: Bytes) | Broken

  datatype Process = Booting | Idle | Busy(run: nat, produced: Bytes) | Gone

  datatype Session = Session(
    model: string, closed: bool, stdin: seq<Message>, stdout: seq<Output>,
    deaf: bool /* the reader has stopped */, process: Process)

  /** What a process may do: the contract that the tests' fake runner documents, and besides a
      repeated Ready, bytes that are not a frame, and exit, at any time. When the process has exited
      its pipe is closed with what is still in it, perhaps in the middle of a frame (`Lose`). */
  datatype Move = Boot | FailBoot(code: Bytes, message: Bytes) | TakeInput | Produce(text: Bytes) | Finish(frame: Frame)
                | RepeatReady | Garble | Exit | Lose(kept: nat)

  function Emit(s: Session, o: Output): Session {
    if s.deaf then s else s.(stdout := s.stdout + [o])
  }

  function MoveSession(s: Session, m: Move): Option<Session> {
    match m
    case Boot =>
      if s.process != Booting then None else Some(Emit(s.(process := Idle), Item(None, Ready, [])))
    case FailBoot(code, message) =>
      if s.process != Booting || !ValidFrame(Error(code, message)) then None
      else Some(Emit(s.(process := Gone), Item(None, Error(code, message), [])))
    case TakeInput =>
      if s.stdin == [] then None
      else if s.process == Idle && s.stdin[0].Generate? then
        Some(s.(stdin := s.stdin[1..], process := Busy(s.stdin[0].run, [])))
      else if (s.process == Idle || s.process.Busy?) && s.stdin[0].Cancel? then
        Some(s.(stdin := s.stdin[1..]))
      else None
    case Produce(text) =>
      if !s.process.Busy? || !ValidFrame(Chunk(text)) then None
      else
        var total := s.process.produced + text;
        Some(Emit(s.(process := Busy(s.process.run, total)), Item(Some(s.process.run), Chunk(text), total)))
    case Finish(frame) =>
      if !s.process.Busy? || !(frame.Completed? || frame.Error?) || !ValidFrame(frame) then None
      else Some(Emit(s.(process := Idle), Item(Some(s.process.run), frame, s.process.produced)))
    case RepeatReady =>
      if s.process != Idle && !s.process.Busy? then None else Some(Emit(s, Item(None, Ready, [])))
    case Garble =>
      if s.process == Gone then None else Some(Emit(s, Broken))
    case Exit => Some(s.(process := Gone))
    case Lose(kept) =>
      if kept > |s.stdout| then None
      else Some(s.(process := Gone, stdout := if s.deaf then [] else s.stdout[..kept] + [Broken]))
  }

  /** Taking the next item off the frame channel. */
  function Pop(s: Session): Session
    requires s.stdout != []
  {
    if s.stdout[0].Broken? then s.(stdout := [], deaf := true) else s.(stdout := s.stdout[1..])
  }

  /* ---------- the provider ---------- */

  datatype Event =
    | Started(model: string) | Delta(text: Bytes) | CompletedEvent(text: Bytes) | CancelledEvent | ErrorEvent

  /** Called: `run` entered. Holding: it has the mutex. Erring: it returned an error that is still
      to be reported. Over: its event channel is closed. */
  datatype RunState = Called | Holding | Erring | Over

  datatype Run = Run(
    model: string, stream: bool, ctxDone: bool, events: seq<Event>,
    text: Bytes /* the chunks read */, generated: Option<Bytes> /* what its runner says it produced */, state: RunState)

  datatype Why = ForProbe | ForRun(run: nat) | ForCooldown

  /** Where the holder of the mutex is. */
  datatype Lock =
    | Free
    | Starting(id: nat, why: Why)
    | Begun(run: nat)
    | Sending(run: nat)
    | Reading(run: nat)
    | Delivering(run: nat, chunk: Bytes)
    | Aborting(run: nat, reports: bool)
    | Draining(run: nat, reports: bool)
    | Reporting(run: nat, final: Event)

  datatype State = State(
    sessions: seq<Session>,      // every process ever started
    current: Option<nat>,        // p.session
    epoch: nat, timer: Option<nat>,
    callbacks: set<nat>,         // epochs of cooldown functions that may still run: Stop can come too late
    lock: Lock, runs: seq<Run>)

  const INITIAL := State([], None, 0, None, {}, Free, [])

  datatype Action =
    | ProcessStep(id: nat, move: Move)
    | Expire(run: nat)
    | CallRun(model: string, stream: bool)
    | RejectInput(run: nat)
    | BeginRun(run: nat, spawned: bool)
    | Probe(model: string, spawned: bool)
    | AwaitReady | AbandonStart
    | SendStarted(ok: bool) | WriteGenerate(ok: bool)
    | ReadFrame | ReadEnd | ReadExpired | Wait
    | SendDelta(ok: bool)
    | WriteCancel(ok: bool) | DrainFrame | DrainStop
    | SendFinal(ok: bool)
    | SendError(run: nat, ok: bool)
    | Close
    | Fire(epoch: nat, spawned: bool)

  function SetSession(s: State, id: nat, x: Session): State {
    if id < |s.sessions| then s.(sessions := s.sessions[id := x]) else s
  }

  function SetRun(s: State, r: nat, x: Run): State {
    if r < |s.runs| then s.(runs := s.runs[r := x]) else s
  }

  /** session.close and p.session = nil, wherever the program does both. */
  function CloseCurrent(s: State): State {
    if s.current.Some? && s.current.value < |s.sessions| then
      SetSession(s, s.current.value, s.sessions[s.current.value].(closed := true)).(current := None)
    else s.(current := None)
  }

  /** `run` returns: the deferred cooldown is scheduled and the mutex released. */
  function Leave(c: Config, s: State, r: nat, end: RunState): State
    requires r < |s.runs|
  {
    var x := s.runs[r];
    var s := SetRun(s, r, x.(state := end)).(lock := Free);
    if !c.cooldown || x.model == c.residentName then s
    else s.(timer := Some(s.epoch), callbacks := s.callbacks + {s.epoch})
  }

  /** Nobody got a session: a run fails before its cooldown was deferred. */
  function NoSession(s: State, why: Why): State {
    match why
    case ForRun(r) => if r < |s.runs| then SetRun(s, r, s.runs[r].(state := Erring)).(lock := Free) else s
    case _ => s.(lock := Free)
  }

  function HasSession(s: State, why: Why): State {
    s.(lock := match why case ForRun(r) => Begun(r) case _ => Free)
  }

  function StartSession(s: State, model: string, why: Why, spawned: bool): State {
    if !spawned then NoSession(s, why)
    else s.(sessions := s.sessions + [Session(model, false, [], [], false, Booting)],
      lock := Starting(|s.sessions|, why))
  }

  function SessionFor(s: State, model: string, why: Why, spawned: bool): State {
    if s.current.Some? && s.current.value < |s.sessions|
      && s.sessions[s.current.value].model == model then HasSession(s, why)
    else StartSession(CloseCurrent(s), model, why, spawned)
  }

  /** readFrame failed: an ended context leads to cancelAndDrain, anything else discards the session. */
  function ReadFailed(c: Config, s: State, r: nat): State
    requires r < |s.runs|
  {
    if s.runs[r].ctxDone then s.(lock := Aborting(r, true)) else Leave(c, CloseCurrent(s), r, Erring)
  }

  function DrainFailed(c: Config, s: State, r: nat, reports: bool): State
    requires r < |s.runs|
  {
    Leave(c, CloseCurrent(s), r, if reports then Erring else Over)
  }

  /** A frame taken off the channel while draining: only Completed ends it well. */
  function Drain(c: Config, s: State, r: nat, reports: bool, o: Output): State
    requires r < |s.runs|
  {
    if o.Item? && o.frame.Chunk? then s
    else if o.Item? && o.frame.Completed? then Leave(c, s, r, Over)
    else DrainFailed(c, s, r, reports)
  }

  function Consume(c: Config, s: State, r: nat, o: Output): State
    requires r < |s.runs|
  {
    if o.Broken? then ReadFailed(c, s, r) else
    var x := s.runs[r];
    match o.frame
    case Chunk(t) =>
      SetRun(s, r, x.(text := x.text + t)).(lock := if x.stream then Delivering(r, t) else Reading(r))
    case Completed(reason, _, _) =>
      SetRun(s, r, x.(generated := Some(o.total)))
        .(lock := Reporting(r, if reason == 3 then CancelledEvent else CompletedEvent(x.text)))
    case Error(code, _) =>
      (if IsFatal(code) then CloseCurrent(s) else s).(lock := Reporting(r, ErrorEvent))
    case Ready => Leave(c, CloseCurrent(s), r, Erring)
  }

  /** The session of the lock holder, if it is there. */
  function Held(s: State): Option<Session> {
    if s.current.Some? && s.current.value < |s.sessions| then Some(s.sessions[s.current.value]) else None
  }

  function SetHeld(s: State, x: Session): State
    requires s.current.Some?
  {
    SetSession(s, s.current.value, x)
  }

  /** One step, or None where it is not enabled. */
  function Apply(c: Config, s: State, a: Action): Option<State> {
    match a
    case ProcessStep(id, m) =>
      if id >= |s.sessions| then None
      else (match MoveSession(s.sessions[id], m) case None => None case Some(x) => Some(SetSession(s, id, x)))
    case Expire(r) =>
      if r >= |s.runs| then None else Some(SetRun(s, r, s.runs[r].(ctxDone := true)))
    case CallRun(model, stream) =>
      Some(s.(runs := s.runs + [Run(model, stream, false, [], [], None, Called)]))
    case RejectInput(r) =>
      if r >= |s.runs| || s.runs[r].state != Called then None
      else Some(SetRun(s, r, s.runs[r].(state := Erring)))
    case BeginRun(r, spawned) =>
      if s.lock != Free || r >= |s.runs| || s.runs[r].state != Called then None
      else
        var s := SetRun(s, r, s.runs[r].(state := Holding)).(epoch := s.epoch + 1, timer := None);
        Some(SessionFor(s, s.runs[r].model, ForRun(r), spawned))
    case Probe(model, spawned) =>
      if s.lock != Free then None else Some(SessionFor(s.(timer := None), model, ForProbe, spawned))
    case AwaitReady => ApplyAwaitReady(s)
    case AbandonStart =>
      if !s.lock.Starting? || s.lock.id >= |s.sessions| then None else Some(AbandonedStart(s))
    case SendStarted(ok) =>
      if !s.lock.Begun? || s.lock.run >= |s.runs| then None else
      var r := s.lock.run; var x := s.runs[r];
      if ok then Some(SetRun(s, r, x.(events := x.events + [Started(x.model)])).(lock := Sending(r)))
      else if x.ctxDone then Some(Leave(c, s, r, Over)) else None
    case WriteGenerate(ok) =>
      if !s.lock.Sending? || s.lock.run >= |s.runs| || Held(s) == None then None else
      var r, x := s.lock.run, Held(s).value;
      if ok then Some(SetHeld(s, x.(stdin := x.stdin + [Generate(r)])).(lock := Reading(r)))
      else Some(Leave(c, CloseCurrent(s), r, Erring))
    case ReadFrame =>
      if !s.lock.Reading? || s.lock.run >= |s.runs| || Held(s) == None || Held(s).value.stdout == [] then None
      else Some(Consume(c, SetHeld(s, Pop(Held(s).value)), s.lock.run, Held(s).value.stdout[0]))
    case ReadEnd =>
      if !s.lock.Reading? || s.lock.run >= |s.runs| || Held(s) == None then None
      else if Held(s).value.stdout == [] && (Held(s).value.deaf || Held(s).value.process == Gone)
      then Some(ReadFailed(c, s, s.lock.run)) else None
    case ReadExpired =>
      if !s.lock.Reading? || s.lock.run >= |s.runs| || !s.runs[s.lock.run].ctxDone then None
      else Some(ReadFailed(c, s, s.lock.run))
    case Wait =>
      if s.lock.Reading? then Some(s) else None
    case SendDelta(ok) =>
      if !s.lock.Delivering? || s.lock.run >= |s.runs| then None else
      var r := s.lock.run; var x := s.runs[r];
      if ok then Some(SetRun(s, r, x.(events := x.events + [Delta(s.lock.chunk)])).(lock := Reading(r)))
      else if x.ctxDone then Some(s.(lock := Aborting(r, false))) else None
    case WriteCancel(ok) =>
      if !s.lock.Aborting? || s.lock.run >= |s.runs| || Held(s) == None then None else
      var r, x := s.lock.run, Held(s).value;
      if ok then Some(SetHeld(s, x.(stdin := x.stdin + [Cancel(r)])).(lock := Draining(r, s.lock.reports)))
      else Some(DrainFailed(c, s, r, s.lock.reports))
    case DrainFrame =>
      if !s.lock.Draining? || s.lock.run >= |s.runs| || Held(s) == None || Held(s).value.stdout == [] then None else
      Some(Drain(c, SetHeld(s, Pop(Held(s).value)), s.lock.run, s.lock.reports, Held(s).value.stdout[0]))
    case DrainStop =>
      if !s.lock.Draining? || s.lock.run >= |s.runs| then None
      else Some(DrainFailed(c, s, s.lock.run, s.lock.reports))
    case SendFinal(ok) =>
      if !s.lock.Reporting? || s.lock.run >= |s.runs| then None else
      var r := s.lock.run; var x := s.runs[r];
      if ok then Some(Leave(c, SetRun(s, r, x.(events := x.events + [s.lock.final])), r, Over))
      else if x.ctxDone then Some(Leave(c, s, r, Over)) else None
    case SendError(r, ok) =>
      if r >= |s.runs| || s.runs[r].state != Erring then None else
      var x := s.runs[r];
      if ok then Some(SetRun(s, r, x.(events := x.events + [ErrorEvent], state := Over)))
      else if x.ctxDone then Some(SetRun(s, r, x.(state := Over))) else None
    case Close =>
      if s.lock != Free then None else Some(CloseCurrent(s.(timer := None)))
    case Fire(e, spawned) =>
      if s.lock != Free || e !in s.callbacks then None
      else Some(Cooldown(c, s.(callbacks := s.callbacks - {e}), e, spawned))
  }

  function ApplyAwaitReady(s: State): Option<State> {
    if !s.lock.Starting? || s.lock.id >= |s.sessions| || s.sessions[s.lock.id].stdout == [] then None else
    var x := s.sessions[s.lock.id];
    var t := SetSession(s, s.lock.id, Pop(x));
    if x.stdout[0].Item? && x.stdout[0].frame == Ready
    then Some(HasSession(t.(current := Some(s.lock.id)), s.lock.why))
    else Some(AbandonedStart(t))
  }

  /** startSession gives up: the process is closed and never becomes p.session. */
  function AbandonedStart(s: State): State
    requires s.lock.Starting? && s.lock.id < |s.sessions|
  {
    NoSession(SetSession(s, s.lock.id, s.sessions[s.lock.id].(closed := true)), s.lock.why)
  }

  /** The cooldown function of epoch e, up to the point where it waits for a new process. */
  function Cooldown(c: Config, s: State, e: nat, spawned: bool): State {
    if e != s.epoch then s
    else if Held(s) == None || Held(s).value.model == c.residentName then s
    else match c.resident
         case None => s
         case Some(resident) => StartSession(CloseCurrent(s), resident, ForCooldown, spawned)
  }

  /* ---------- behaviours ---------- */

  /** The state after a sequence of steps, or None if one of them is not enabled. */
  function Execute(c: Config, s: State, steps: seq<Action>): Option<State>
    decreases |steps|
  {
    if steps == [] then Some(s)
    else match Apply(c, s, steps[0])
         case None => None
         case Some(t) => Execute(c, t, steps[1..])
  }

  ghost predicate Reachable(c: Config, s: State) {
    exists steps: seq<Action> :: Execute(c, INITIAL, steps) == Some(s)
  }
}
