/**
 The generation queue as a step system: many enqueuing goroutines, one worker, cancellations,
 deadlines and the shutdown step. The server's mutex is held for one step at a time and let go
 between related updates, so steps of different goroutines interleave freely.
 A job is named by its position in `jobs`; different jobs may carry the same request id.
 */
module QueueMachine {
  import opened Common

  /** Where the goroutine that enqueues a job is. */
  datatype Stage = Fresh | Reserved | Sent | Expiring | Refusing | Rejected

  datatype Job = Job(id: string, ctxDone: bool, stage: Stage)

  /** Where the worker is; from Received to Cleared it holds a job. */
  datatype Worker =
    | Waiting
    | Received(job: nat)    // taken off the channel
    | Checking(job: nat)    // removeQueued done
    | Passed(job: nat)      // context found alive
    | Running(job: nat)     // setActive done, provider called
    | Finished(job: nat)    // runJob returned
    | Cleared(job: nat)     // clearActive done

  datatype State = State(
    depth: nat, jobs: seq<Job>,
    active: map<string, nat>, queued: map<string, nat>, channel: seq<nat>, shutdown: bool, worker: Worker,
    sent: seq<nat>, received: seq<nat>, started: seq<nat>, skipped: set<nat>)   // what has happened so far

  function Initial(depth: nat): State { State(depth, [], map[], map[], [], false, Waiting, [], [], [], {}) }

  datatype Action =
    | Submit(id: string) | Timeout(job: nat)
    | Reserve(job: nat) | Send(job: nat) | SeeExpired(job: nat) | SeeFull(job: nat) | Forget(job: nat)
    | Receive | Dequeue | Check | Activate | Finish | Clear | Release
    | Cancel(id: string)
    | Shutdown

  function SetStage(s: State, j: nat, stage: Stage): State {
    if j < |s.jobs| then s.(jobs := s.jobs[j := s.jobs[j].(stage := stage)]) else s
  }

  function EndContext(s: State, j: nat): State {
    if j < |s.jobs| then s.(jobs := s.jobs[j := s.jobs[j].(ctxDone := true)]) else s
  }

  /** The shutdown goroutine cancels what is in the two maps at that moment. */
  function EndListed(s: State): seq<Job> {
    seq(|s.jobs|, j requires 0 <= j < |s.jobs| =>
      if j in s.active.Values || j in s.queued.Values then s.jobs[j].(ctxDone := true) else s.jobs[j])
  }

  function AtStage(s: State, j: nat, stage: Stage): bool { j < |s.jobs| && s.jobs[j].stage == stage }

  function Apply(s: State, a: Action): Option<State> {
    match a
    case Submit(id) => Some(s.(jobs := s.jobs + [Job(id, false, Fresh)]))
    case Timeout(j) => if j < |s.jobs| then Some(EndContext(s, j)) else None
    case Reserve(j) =>
      if !AtStage(s, j, Fresh) then None
      else if s.shutdown || s.jobs[j].id in s.active || s.jobs[j].id in s.queued
      then Some(EndContext(SetStage(s, j, Rejected), j))
      else Some(SetStage(s, j, Reserved).(queued := s.queued[s.jobs[j].id := j]))
    case Send(j) =>
      if !AtStage(s, j, Reserved) || |s.channel| >= s.depth then None
      else Some(SetStage(s, j, Sent).(channel := s.channel + [j], sent := s.sent + [j]))
    case SeeExpired(j) =>
      if !AtStage(s, j, Reserved) || !s.jobs[j].ctxDone then None else Some(SetStage(s, j, Expiring))
    case SeeFull(j) =>
      if !AtStage(s, j, Reserved) || s.jobs[j].ctxDone || |s.channel| < s.depth then None
      else Some(SetStage(s, j, Refusing))
    case Forget(j) =>
      if !AtStage(s, j, Expiring) && !AtStage(s, j, Refusing) then None
      else Some(EndContext(SetStage(s, j, Rejected), j).(queued := s.queued - {s.jobs[j].id}))
    case Receive =>
      if s.worker != Waiting || s.channel == [] then None
      else Some(s.(channel := s.channel[1..], received := s.received + [s.channel[0]],
                   worker := Received(s.channel[0])))
    case Dequeue =>
      if !s.worker.Received? || s.worker.job >= |s.jobs| then None
      else Some(s.(queued := s.queued - {s.jobs[s.worker.job].id}, worker := Checking(s.worker.job)))
    case Check =>
      if !s.worker.Checking? || s.worker.job >= |s.jobs| then None
      else if s.jobs[s.worker.job].ctxDone then Some(s.(worker := Waiting, skipped := s.skipped + {s.worker.job}))
      else Some(s.(worker := Passed(s.worker.job)))
    case Activate =>
      if !s.worker.Passed? || s.worker.job >= |s.jobs| then None
      else Some(s.(active := s.active[s.jobs[s.worker.job].id := s.worker.job],
                   started := s.started + [s.worker.job], worker := Running(s.worker.job)))
    case Finish => if !s.worker.Running? then None else Some(s.(worker := Finished(s.worker.job)))
    case Clear =>
      if !s.worker.Finished? || s.worker.job >= |s.jobs| then None
      else Some(s.(active := s.active - {s.jobs[s.worker.job].id}, worker := Cleared(s.worker.job)))
    case Release =>
      if !s.worker.Cleared? then None else Some(EndContext(s, s.worker.job).(worker := Waiting))
    case Cancel(id) =>
      if id in s.active then Some(EndContext(s, s.active[id]))
      else if id in s.queued then Some(EndContext(s, s.queued[id]).(queued := s.queued - {id}))
      else Some(s)
    case Shutdown => Some(s.(shutdown := true, jobs := EndListed(s)))
  }

  function Execute(s: State, steps: seq<Action>): Option<State>
    decreases |steps|
  {
    if steps == [] then Some(s)
    else match Apply(s, steps[0])
         case None => None
         case Some(t) => Execute(t, steps[1..])
  }

  ghost predicate Reachable(depth: nat, s: State) {
    exists steps: seq<Action> :: Execute(Initial(depth), steps) == Some(s)
  }
}
