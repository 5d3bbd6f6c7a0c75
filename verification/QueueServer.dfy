/**
 The server's queue as the program writes it: two maps and a channel, updated under a mutex that is
 let go between related updates. `history` records the steps of the machine that have been taken, so
 every state the code goes through is a reachable one and the theorems about reachable states are
 theorems about the code. Where the mutex is free, `Interleave` lets the other goroutines act.
 */
module QueueServer {
  import opened Common
  import opened QueueMachine
  import opened QueueTheorems
  import opened QueueShutdown

  /** The goroutine that runs the code at hand. */
  datatype Self = Enqueuer(job: nat) | TheWorker

  /** Steps only that goroutine takes. */
  predicate Own(self: Self, a: Action) {
    match self
    case Enqueuer(j) => (a.Reserve? || a.Send? || a.SeeExpired? || a.SeeFull? || a.Forget?) && a.job == j
    case TheWorker => a.Receive? || a.Dequeue? || a.Check? || a.Activate? || a.Finish? || a.Clear? || a.Release?
  }

  /** What a goroutine can rely on while others act. */
  predicate Undisturbed(self: Self, s: State, t: State) {
    && t.depth == s.depth && |t.jobs| >= |s.jobs|
    && (forall j :: 0 <= j < |s.jobs| ==> t.jobs[j].id == s.jobs[j].id && (s.jobs[j].ctxDone ==> t.jobs[j].ctxDone))
    && match self
       case Enqueuer(j) => j < |s.jobs| ==> t.jobs[j].stage == s.jobs[j].stage && (j in t.sent <==> j in s.sent)
       case TheWorker =>
         && t.worker == s.worker && t.received == s.received && t.started == s.started && t.skipped == s.skipped
         && t.active == s.active && s.channel <= t.channel
  }

  lemma JobsGrow(s: State, a: Action)
    requires Apply(s, a).Some?
    ensures var t := Apply(s, a).value;
            t.depth == s.depth && |t.jobs| >= |s.jobs| && forall j :: 0 <= j < |s.jobs| ==> t.jobs[j].id == s.jobs[j].id
  {
  }

  lemma OthersLeaveEnqueuer(s: State, a: Action, j: nat)
    requires Apply(s, a).Some? && !Own(Enqueuer(j), a) && j < |s.jobs|
    ensures var t := Apply(s, a).value;
            && j < |t.jobs| && t.jobs[j].stage == s.jobs[j].stage
            && (j in t.sent <==> j in s.sent)
  {
    if a.Send? {
      assert forall i :: i in s.sent + [a.job] <==> i in s.sent || i == a.job;
    }
  }

  lemma OthersLeaveWorker(s: State, a: Action)
    requires Apply(s, a).Some? && !Own(TheWorker, a)
    ensures var t := Apply(s, a).value;
            && t.worker == s.worker && t.received == s.received && t.started == s.started && t.skipped == s.skipped
            && t.active == s.active && s.channel <= t.channel
  {
  }

  lemma OthersStep(self: Self, s: State, a: Action)
    requires Apply(s, a).Some? && !Own(self, a)
    ensures Undisturbed(self, s, Apply(s, a).value)
  {
    JobsGrow(s, a);
    forall j: nat | j < |s.jobs| && s.jobs[j].ctxDone
      ensures Apply(s, a).value.jobs[j].ctxDone
    {
      StaysEnded(s, a, j);
    }
    match self
    case Enqueuer(j) => if j < |s.jobs| { OthersLeaveEnqueuer(s, a, j); }
    case TheWorker => OthersLeaveWorker(s, a);
  }

  lemma UndisturbedTwice(self: Self, s: State, t: State, u: State)
    requires Undisturbed(self, s, t) && Undisturbed(self, t, u)
    ensures Undisturbed(self, s, u)
  {
  }

  lemma {:induction false} ExecuteAppend(s: State, steps: seq<Action>, a: Action)
    requires Execute(s, steps).Some?
    ensures Execute(s, steps + [a]) == Apply(Execute(s, steps).value, a)
    decreases |steps|
  {
    if steps == [] {
      assert steps + [a] == [a] && [a][1..] == [];
    } else {
      assert (steps + [a])[1..] == steps[1..] + [a];
      ExecuteAppend(Apply(s, steps[0]).value, steps[1..], a);
    }
  }

  lemma ListedJobsEnd(s: State)
    requires (forall id :: id in s.active ==> s.active[id] < |s.jobs|)
             && (forall id :: id in s.queued ==> s.queued[id] < |s.jobs|)
    ensures forall id :: id in s.active ==> EndListed(s)[s.active[id]].ctxDone
    ensures forall id :: id in s.queued ==> EndListed(s)[s.queued[id]].ctxDone
  {
    assert forall id :: id in s.active ==> s.active[id] in s.active.Values;
    assert forall id :: id in s.queued ==> s.queued[id] in s.queued.Values;
  }

  lemma {:induction false} ExecuteShorter(s: State, steps: seq<Action>, n: nat)
    requires Execute(s, steps).Some? && n <= |steps|
    ensures Execute(s, steps[..n]).Some?
    decreases n
  {
    if n > 0 {
      assert steps[..n][0] == steps[0] && steps[..n][1..] == steps[1..][..n - 1];
      ExecuteShorter(Apply(s, steps[0]).value, steps[1..], n - 1);
    }
  }

  datatype Reply = Accepted(position: nat) | ShuttingDown | Duplicate | QueueTimeout | QueueFull

  /** The state just before the n-th recorded step. */
  ghost predicate Was(depth: nat, h: seq<Action>, n: nat, s: State) {
    n < |h| && Execute(Initial(depth), h[..n]) == Some(s)
  }

  lemma WasLater(depth: nat, h: seq<Action>, later: seq<Action>, n: nat, s: State)
    requires h <= later && Was(depth, h, n, s)
    ensures Was(depth, later, n, s) && later[n] == h[n]
  {
    assert later[..n] == h[..n];
  }

  predicate InUse(s: State, id: string) { id in s.active || id in s.queued }

  /** What the client of job j is told: `entry` is the state its reservation met, `met` the state its offer met. */
  predicate Told(j: nat, id: string, entry: State, met: State, reply: Reply) {
    if entry.shutdown then reply == ShuttingDown
    else if InUse(entry, id) then reply == Duplicate
    else Offered(j, |entry.channel| + 1, met, reply)
  }

  /** A request that is entered is sent if there is room; a context that has ended may be seen first. */
  predicate Offered(j: nat, position: nat, met: State, reply: Reply) {
    && j < |met.jobs|
    && var room := |met.channel| < met.depth;
       if met.jobs[j].ctxDone then reply == QueueTimeout || (room && reply == Accepted(position))
       else reply == if room then Accepted(position) else QueueFull
  }

  /** The step taken when the client is told so. */
  function StepFor(j: nat, reply: Reply): Action {
    match reply
    case Accepted(_) => Send(j)
    case QueueTimeout => SeeExpired(j)
    case QueueFull => SeeFull(j)
    case _ => Reserve(j)
  }

  class Server {
    const depth: nat
    var jobs: seq<Job>
    var active: map<string, nat>
    var queued: map<string, nat>
    var channel: seq<nat>
    var shutdown: bool
    var worker: Worker
    var sent: seq<nat>      // sent, received, started and skipped record what has happened so far
    var received: seq<nat>
    var started: seq<nat>
    var skipped: set<nat>
    ghost var history: seq<Action>

    function Abs(): State reads this {
      State(depth, jobs, active, queued, channel, shutdown, worker, sent, received, started, skipped)
    }

    /** The state is the one the recorded steps lead to. */
    ghost predicate Valid() reads this { Execute(Initial(depth), history) == Some(Abs()) }

    constructor (depth: nat)
      ensures Valid() && Abs() == Initial(depth)
    {
      this.depth := depth;
      jobs, active, queued, channel, shutdown, worker := [], map[], map[], [], false, Waiting;
      sent, received, started, skipped, history := [], [], [], {}, [];
    }

    ghost method Record(before: State, a: Action)
      requires Execute(Initial(depth), history) == Some(before) && Apply(before, a) == Some(Abs())
      modifies `history
      ensures Valid() && history == old(history) + [a]
    {
      ExecuteAppend(Initial(depth), history, a);
      history := history + [a];
    }

    lemma Invariant()
      requires Valid()
      ensures Inv(Abs())
    {
      ReachableInv(depth, Abs());
    }

    /** The other goroutines take any number of steps. */
    method Interleave(self: Self)
      requires Valid()
      modifies this
      ensures Valid() && Undisturbed(self, old(Abs()), Abs()) && old(history) <= history
    {
      var n: nat := *;
      while n > 0
        invariant Valid() && Undisturbed(self, old(Abs()), Abs()) && old(history) <= history
      {
        ghost var before := Abs();
        OtherStep(self);
        UndisturbedTwice(self, old(Abs()), before, Abs());
        n := n - 1;
      }
    }

    /** Another goroutine takes a step, or none can. */
    method OtherStep(self: Self)
      requires Valid()
      modifies this
      ensures Valid() && Undisturbed(self, old(Abs()), Abs()) && old(history) <= history
    {
      ghost var before := Abs();
      var a: Action := *;
      var next := Apply(Abs(), a);
      if !Own(self, a) && next.Some? {
        OthersStep(self, before, a);
        Become(next.value);
        Record(before, a);
      }
    }

    method Become(t: State)
      requires t.depth == depth
      modifies this
      ensures Abs() == t && history == old(history)
    {
      jobs, active, queued, channel, shutdown, worker := t.jobs, t.active, t.queued, t.channel, t.shutdown, t.worker;
      sent, received, started, skipped := t.sent, t.received, t.started, t.skipped;
    }

    /* ---------- sections of code that hold the mutex ---------- */

    /** job.cancel() */
    method EndContext(j: nat)
      modifies `jobs
      ensures Abs() == QueueMachine.EndContext(old(Abs()), j)
    {
      if j < |jobs| {
        jobs := jobs[j := jobs[j].(ctxDone := true)];
      }
    }

    /** The goroutine of job j goes on to its next stage. */
    method Advance(j: nat, stage: Stage)
      modifies `jobs
      ensures Abs() == SetStage(old(Abs()), j, stage)
    {
      if j < |jobs| {
        jobs := jobs[j := jobs[j].(stage := stage)];
      }
    }

    method RemoveQueued(id: string)
      modifies `queued
      ensures queued == old(queued) - {id}
    {
      queued := queued - {id};
    }

    method SetActive(id: string, j: nat)
      modifies `active
      ensures active == old(active)[id := j]
    {
      active := active[id := j];
    }

    method ClearActive(id: string)
      modifies `active
      ensures active == old(active) - {id}
    {
      active := active - {id};
    }

    /* ---------- one request ---------- */

    /** enqueueGenerate from the creation of the job on. */
    method EnqueueGenerate(id: string)
      returns (j: nat, reply: Reply, ghost entered: nat, ghost answered: nat, ghost entry: State, ghost met: State)
      requires Valid()
      modifies this
      ensures Valid() && old(history) <= history && j < |jobs| && jobs[j].id == id
      ensures if reply.Accepted? then j in sent && 1 <= reply.position <= depth + 1
              else j !in sent && jobs[j].stage == Rejected && jobs[j].ctxDone
      ensures |old(history)| <= entered <= answered && Was(depth, history, entered, entry)
              && Was(depth, history, answered, met)
      ensures Told(j, id, entry, met, reply)
      ensures history[entered] == Action.Reserve(j) && history[answered] == StepFor(j, reply)
    {
      j := Create(id);
      Interleave(Enqueuer(j));
      entered, entry := |history|, Abs();
      answered, met := entered, entry;
      var refusal, position := Reserve(j);
      Seen(entered, entry);
      if refusal.Some? {
        reply := refusal.value;
        NeverSent(j);
        return;
      }
      ghost var h := history;
      Interleave(Enqueuer(j));
      WasLater(depth, h, history, entered, entry);
      answered, met, h := |history|, Abs(), history;
      reply := Offer(j, position);
      assert history[..answered] == h;
      Seen(answered, met);
      WasLater(depth, h, history, entered, entry);
    }

    /** The steps recorded up to a moment led to the state of that moment. */
    lemma Seen(n: nat, s: State)
      requires Valid() && n < |history| && Execute(Initial(depth), history[..n]) == Some(s)
      ensures Was(depth, history, n, s)
    {
    }

    method Create(id: string) returns (j: nat)
      requires Valid()
      modifies this
      ensures Valid() && old(history) <= history && AtStage(Abs(), j, Fresh) && jobs[j].id == id
    {
      ghost var before := Abs();
      j := |jobs|;
      jobs := jobs + [Job(id, false, Fresh)];
      Record(before, Submit(id));
    }

    /** The critical section in which a request is refused or entered in `queued`. */
    method Reserve(j: nat) returns (refusal: Option<Reply>, position: nat)
      requires Valid() && AtStage(Abs(), j, Fresh)
      modifies this
      ensures Valid() && old(history) <= history && j < |jobs| && jobs[j].id == old(jobs[j].id)
      ensures refusal == if old(shutdown) then Some(ShuttingDown)
                         else if jobs[j].id in old(active) || jobs[j].id in old(queued) then Some(Duplicate)
                         else None
      ensures if refusal.Some? then jobs[j].stage == Rejected && jobs[j].ctxDone && queued == old(queued)
              else jobs[j].stage == Reserved && queued == old(queued)[jobs[j].id := j]
      ensures position == |old(channel)| + 1 <= depth + 1 && history == old(history) + [Action.Reserve(j)]
    {
      ghost var before := Abs();
      var id := jobs[j].id;
      position := |channel| + 1;
      Invariant();
      if shutdown || id in active || id in queued {
        refusal := Some(if shutdown then ShuttingDown else Duplicate);
        Advance(j, Rejected);
        EndContext(j);
      } else {
        refusal := None;
        Advance(j, Reserved);
        queued := queued[id := j];
      }
      Record(before, Action.Reserve(j));
    }

    lemma NeverSent(j: nat)
      requires Valid() && j < |jobs| && jobs[j].stage != Sent
      ensures j !in sent
    {
      Invariant();
      NotSent(Abs(), j);
    }

    /** The select between the channel, the context and the default. */
    method Offer(j: nat, position: nat) returns (reply: Reply)
      requires Valid() && AtStage(Abs(), j, Reserved) && 1 <= position <= depth + 1
      modifies this
      ensures Valid() && old(history) <= history && j < |jobs| && jobs[j].id == old(jobs[j].id)
      ensures if reply.Accepted? then j in sent
              else j !in sent && jobs[j].stage == Rejected && jobs[j].ctxDone && jobs[j].id !in queued
      ensures Offered(j, position, old(Abs()), reply) && old(history) + [StepFor(j, reply)] <= history
    {
      var contextFirst: bool := *;
      if |channel| < depth && !(jobs[j].ctxDone && contextFirst) {
        Push(j);
        return Accepted(position);
      }
      ghost var before := Abs();
      if jobs[j].ctxDone {
        reply := QueueTimeout;
        Advance(j, Expiring);
        Record(before, SeeExpired(j));
      } else {
        reply := QueueFull;
        Advance(j, Refusing);
        Record(before, SeeFull(j));
      }
      Withdraw(j);
    }

    method Push(j: nat)
      requires Valid() && AtStage(Abs(), j, Reserved) && |channel| < depth
      modifies this
      ensures Valid() && history == old(history) + [Send(j)] && j < |jobs| && jobs[j].id == old(jobs[j].id)
      ensures channel == old(channel) + [j] && sent == old(sent) + [j]
    {
      ghost var before := Abs();
      Advance(j, Sent);
      channel, sent := channel + [j], sent + [j];
      Record(before, Send(j));
    }

    /** removeQueued, then the context ends if it has not already. */
    method Withdraw(j: nat)
      requires Valid() && (AtStage(Abs(), j, Expiring) || AtStage(Abs(), j, Refusing))
      modifies this
      ensures Valid() && old(history) <= history && j < |jobs| && jobs[j].id == old(jobs[j].id)
      ensures j !in sent && jobs[j].stage == Rejected && jobs[j].ctxDone && jobs[j].id !in queued
    {
      Interleave(Enqueuer(j));
      ghost var before := Abs();
      RemoveQueued(jobs[j].id);
      Advance(j, Rejected);
      EndContext(j);
      Record(before, Forget(j));
      NeverSent(j);
    }

    /* ---------- the worker ---------- */

    /** One job, from the channel to the end of its context. */
    method WorkOne() returns (j: nat)
      requires Valid() && worker == Waiting && channel != []
      modifies this
      ensures Valid() && old(history) <= history && worker == Waiting && j == old(channel)[0] && j < |jobs|
              && jobs[j].ctxDone
      ensures received == old(received) + [j] && old(channel)[1..] <= channel
      ensures (started == old(started) + [j] && skipped == old(skipped))
              || (started == old(started) && skipped == old(skipped) + {j})
    {
      j := Take();
      Interleave(TheWorker);
      JobFacts();
      ghost var before := Abs();
      if jobs[j].ctxDone {
        worker, skipped := Waiting, skipped + {j};
        Record(before, Check);
        return;
      }
      worker := Passed(j);
      Record(before, Check);
      RunPassed(j);
    }

    lemma JobFacts()
      requires Valid() && !worker.Waiting?
      ensures worker.job < |jobs|
    {
      Invariant();
      assert AtStage(Abs(), worker.job, Sent);
    }

    /** Off the channel, then removeQueued. */
    method Take() returns (j: nat)
      requires Valid() && worker == Waiting && channel != []
      modifies this
      ensures Valid() && old(history) <= history && worker == Checking(j) && j == old(channel)[0] && j < |jobs|
      ensures received == old(received) + [j] && started == old(started) && skipped == old(skipped)
      ensures old(channel)[1..] <= channel && jobs[j].id !in queued
    {
      j := Pop();
      Interleave(TheWorker);
      JobFacts();
      ghost var before := Abs();
      RemoveQueued(jobs[j].id);
      worker := Checking(j);
      Record(before, Dequeue);
    }

    method Pop() returns (j: nat)
      requires Valid() && worker == Waiting && channel != []
      modifies this
      ensures Valid() && old(history) <= history && worker == Received(j) && [j] + channel == old(channel)
      ensures received == old(received) + [j] && started == old(started) && skipped == old(skipped)
    {
      ghost var before := Abs();
      j := channel[0];
      channel, received, worker := channel[1..], received + [j], Received(j);
      Record(before, Receive);
    }

    /** setActive, runJob, clearActive, cancel. */
    method RunPassed(j: nat)
      requires Valid() && worker == Passed(j)
      modifies this
      ensures Valid() && old(history) <= history && worker == Waiting && j < |jobs| && jobs[j].ctxDone
      ensures received == old(received) && started == old(started) + [j] && skipped == old(skipped)
      ensures old(channel) <= channel
    {
      Interleave(TheWorker);
      Start(j);
      Interleave(TheWorker);
      RunEnds(j);
      Interleave(TheWorker);
      Deactivate(j);
      Interleave(TheWorker);
      Finally(j);
    }

    /** Nothing of what has happened is forgotten, and the worker's own record stays as it is. */
    twostate predicate SameRecord() reads this {
      && old(history) <= history && received == old(received) && started == old(started) && skipped == old(skipped)
      && channel == old(channel)
    }

    method Start(j: nat)
      requires Valid() && worker == Passed(j)
      modifies this
      ensures Valid() && old(history) <= history && worker == Running(j) && j < |jobs| && active == map[jobs[j].id := j]
      ensures received == old(received) && started == old(started) + [j] && skipped == old(skipped)
      ensures channel == old(channel)
    {
      JobFacts();
      Invariant();
      ghost var before := Abs();
      SetActive(jobs[j].id, j);
      worker, started := Running(j), started + [j];
      Record(before, Activate);
    }

    method RunEnds(j: nat)
      requires Valid() && worker == Running(j)
      modifies this
      ensures Valid() && worker == Finished(j) && SameRecord() && active == old(active)
    {
      ghost var before := Abs();
      worker := Finished(j);
      Record(before, Finish);
    }

    method Deactivate(j: nat)
      requires Valid() && worker == Finished(j)
      modifies this
      ensures Valid() && worker == Cleared(j) && SameRecord() && active == map[]
    {
      JobFacts();
      Invariant();
      ghost var before := Abs();
      ClearActive(jobs[j].id);
      worker := Cleared(j);
      Record(before, Clear);
    }

    method Finally(j: nat)
      requires Valid() && worker == Cleared(j)
      modifies this
      ensures Valid() && worker == Waiting && SameRecord() && j < |jobs| && jobs[j].ctxDone
    {
      JobFacts();
      ghost var before := Abs();
      EndContext(j);
      worker := Waiting;
      Record(before, Release);
    }

    /** The worker's loop, for `patience` turns; a turn with nothing on the channel waits. */
    method Work(patience: nat)
      requires Valid() && worker == Waiting
      modifies this
      ensures Valid() && old(history) <= history && worker == Waiting
      ensures old(received) <= received && old(started) <= started && old(skipped) <= skipped
      ensures forall j :: j in received[|old(received)|..] ==> j in started[|old(started)|..] || j in skipped
      ensures old(received) + old(channel) <= received + channel
      ensures |received| >= |old(received)| + if patience < |old(channel)| then patience else |old(channel)|
    {
      var left := patience;
      while left > 0
        invariant Valid() && old(history) <= history && worker == Waiting
        invariant old(received) <= received && old(started) <= started && old(skipped) <= skipped
        invariant forall j :: j in received[|old(received)|..] ==> j in started[|old(started)|..] || j in skipped
        invariant old(received) + old(channel) <= received + channel && left <= patience
        invariant patience - left <= |received| - |old(received)| || |received| - |old(received)| >= |old(channel)|
      {
        left := left - 1;
        Interleave(TheWorker);
        if channel != [] {
          ghost var r0, s0, c0 := received, started, channel;
          var j := WorkOne();
          assert r0 + c0 == received + c0[1..];
          assert received[|old(received)|..] == r0[|old(received)|..] + [j];
          assert started == s0 || started[|old(started)|..] == s0[|old(started)|..] + [j];
        }
      }
    }

    /* ---------- cancel and shutdown ---------- */

    method CancelRequest(id: string) returns (ok: bool)
      requires Valid()
      modifies this
      ensures Valid() && old(history) <= history && history == old(history) + [Cancel(id)]
      ensures ok == (id in old(active) || id in old(queued)) && (!ok ==> Abs() == old(Abs()))
      ensures id in old(active) ==> old(active)[id] < |jobs| && jobs[old(active)[id]].ctxDone && queued == old(queued)
      ensures id !in old(active) && id in old(queued) ==>
                && queued == old(queued) - {id} && old(queued)[id] < |jobs| && jobs[old(queued)[id]].ctxDone
      ensures active == old(active) && channel == old(channel) && worker == old(worker) && shutdown == old(shutdown)
      ensures id !in old(active) && id in old(queued) ==> Doomed(Abs(), old(queued)[id])
    {
      ghost var before := Abs();
      Invariant();
      ListedJobsExist(before);
      if id !in active && id in queued {
        NotYetStarted(before, queued[id]);
      }
      ok := true;
      if id in active {
        EndContext(active[id]);
      } else if id in queued {
        EndContext(queued[id]);
        RemoveQueued(id);
      } else {
        ok := false;
      }
      Record(before, Cancel(id));
    }

    /** The jobs of `ended` have had their contexts ended. */
    predicate Ended(was: seq<Job>, ended: set<nat>) reads `jobs {
      |jobs| == |was| && forall j :: 0 <= j < |was| ==>
        jobs[j] == if j in ended then was[j].(ctxDone := true) else was[j]
    }

    /** The critical section of the goroutine that waits for the daemon's context. */
    method ShutDown()
      requires Valid()
      modifies this
      ensures Valid() && history == old(history) + [Shutdown] && shutdown
      ensures forall id :: id in active ==> active[id] < |jobs| && jobs[active[id]].ctxDone
      ensures forall id :: id in queued ==> queued[id] < |jobs| && jobs[queued[id]].ctxDone
    {
      ghost var before := Abs();
      shutdown := true;
      CancelAll(active);
      CancelAll(queued);
      assert jobs == EndListed(before);
      Record(before, Shutdown);
      ListedJobsExist(before);
      ListedJobsEnd(before);
    }

    /** What the two maps name are jobs. */
    lemma ListedJobsExist(s: State)
      requires Valid() && s.active == active && s.queued == queued && |s.jobs| == |jobs|
      ensures (forall id :: id in s.active ==> s.active[id] < |s.jobs|)
              && (forall id :: id in s.queued ==> s.queued[id] < |s.jobs|)
    {
      Invariant();
      forall id | id in queued
        ensures queued[id] < |jobs|
      {
        assert BeforeDequeue(Abs(), queued[id]);
      }
      if !worker.Waiting? {
        JobFacts();
      }
    }

    /** Ends the context of every job in a map, in whatever order the keys come. */
    method CancelAll(listed: map<string, nat>)
      modifies `jobs
      ensures Ended(old(jobs), listed.Values)
    {
      var left, done := listed.Keys, {};
      ghost var was := jobs;
      while left != {}
        invariant left <= listed.Keys && Ended(was, done)
        invariant forall id :: id in listed ==> id in left || listed[id] in done
        invariant done <= listed.Values
        decreases left
      {
        var id :| id in left;
        EndContext(listed[id]);
        left, done := left - {id}, done + {listed[id]};
      }
      assert done == listed.Values;
    }
  }
}
