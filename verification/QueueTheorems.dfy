/**
 What the generation queue promises, over every interleaving.
 */
module QueueTheorems {
  import opened Common
  import opened QueueMachine

  /* ---------- the invariant ---------- */

  /** The job the worker has taken off the channel but not yet decided about. */
  function Undecided(w: Worker): Option<nat> {
    if w.Received? || w.Checking? || w.Passed? then Some(w.job) else None
  }

  /** Received jobs the worker has decided about, in the order it received them. */
  function Decided(s: State): seq<nat> {
    if Undecided(s.worker).Some? && s.received != [] then s.received[..|s.received| - 1] else s.received
  }

  function Without(q: seq<nat>, drop: set<nat>): seq<nat> {
    if q == [] then []
    else Without(q[..|q| - 1], drop) + (if q[|q| - 1] in drop then [] else [q[|q| - 1]])
  }

  predicate Distinct(q: seq<nat>) { forall i, j :: 0 <= i < j < |q| ==> q[i] != q[j] }

  /** A job that has not got past removeQueued: it is not started and may be in `queued`. */
  predicate BeforeDequeue(s: State, j: nat) {
    j < |s.jobs| &&
    (s.jobs[j].stage == Reserved || s.jobs[j].stage == Expiring || s.jobs[j].stage == Refusing
     || j in s.channel || s.worker == Received(j))
  }

  predicate Traffic(s: State) {
    && s.sent == s.received + s.channel && Distinct(s.sent) && |s.channel| <= s.depth
    && (forall j :: j in s.sent ==> AtStage(s, j, Sent))
    && (forall j :: 0 <= j < |s.jobs| && s.jobs[j].stage == Sent ==> j in s.sent)
    && (Undecided(s.worker).Some? ==> s.received != [] && s.received[|s.received| - 1] == Undecided(s.worker).value)
    && s.started == Without(Decided(s), s.skipped)
    && (forall j :: j in s.skipped ==> j in Decided(s) && j < |s.jobs| && s.jobs[j].ctxDone)
  }

  /** `active` holds the running job and no other. */
  predicate ActiveOk(s: State) {
    s.active == if (s.worker.Running? || s.worker.Finished?) && s.worker.job < |s.jobs|
                then map[s.jobs[s.worker.job].id := s.worker.job] else map[]
  }

  predicate QueuedOk(s: State) {
    forall id :: id in s.queued ==> BeforeDequeue(s, s.queued[id]) && s.jobs[s.queued[id]].id == id
  }

  predicate Inv(s: State) {
    && Traffic(s) && ActiveOk(s) && QueuedOk(s)
    && (!s.worker.Waiting? ==> s.worker.job in s.received)
  }

  lemma {:induction false} WithoutDrop(q: seq<nat>, drop: set<nat>, j: nat)
    requires j !in q
    ensures Without(q, drop + {j}) == Without(q, drop)
  {
    if q != [] {
      WithoutDrop(q[..|q| - 1], drop, j);
    }
  }

  lemma WithoutAppend(q: seq<nat>, drop: set<nat>, j: nat)
    ensures Without(q + [j], drop) == Without(q, drop) + (if j in drop then [] else [j])
  {
    assert (q + [j])[..|q|] == q;
  }

  lemma {:induction false} WithoutSubset(q: seq<nat>, drop: set<nat>, j: nat)
    requires j in Without(q, drop)
    ensures j in q && j !in drop
  {
    if q != [] && j in Without(q[..|q| - 1], drop) {
      WithoutSubset(q[..|q| - 1], drop, j);
    }
  }

  /** Changing contexts, or adding a job, touches nothing else. */
  lemma ContextsKeepInv(s: State, t: State)
    requires Inv(s) && t == s.(jobs := t.jobs, shutdown := t.shutdown) && |t.jobs| >= |s.jobs|
    requires forall j :: 0 <= j < |s.jobs| ==>
             t.jobs[j] == s.jobs[j].(ctxDone := t.jobs[j].ctxDone) && (s.jobs[j].ctxDone ==> t.jobs[j].ctxDone)
    requires forall j :: |s.jobs| <= j < |t.jobs| ==> t.jobs[j].stage == Fresh
    ensures Inv(t)
  {
    forall j | j in t.sent
      ensures AtStage(t, j, Sent)
    {
      assert AtStage(s, j, Sent);
    }
    if !s.worker.Waiting? {
      assert AtStage(s, s.worker.job, Sent);
    }
  }

  lemma NotSent(s: State, j: nat)
    requires Traffic(s) && !AtStage(s, j, Sent)
    ensures j !in s.sent
  {
  }

  lemma ReserveKeepsInv(s: State, j: nat)
    requires Inv(s) && Apply(s, Reserve(j)).Some?
    ensures Inv(Apply(s, Reserve(j)).value)
  {
    StageKeepsTraffic(s, j, Apply(s, Reserve(j)).value);
  }

  /** A job that was not sent changes its stage (and its context). */
  lemma StageKeepsTraffic(s: State, j: nat, t: State)
    requires Traffic(s) && j < |s.jobs| && s.jobs[j].stage != Sent && |t.jobs| == |s.jobs|
    requires t == s.(jobs := t.jobs, queued := t.queued)
    requires forall i :: 0 <= i < |s.jobs| && i != j ==> t.jobs[i] == s.jobs[i]
    requires t.jobs[j].stage != Sent && (s.jobs[j].ctxDone ==> t.jobs[j].ctxDone)
    ensures Traffic(t) && j !in s.sent
  {
    NotSent(s, j);
    forall i | i in t.sent
      ensures AtStage(t, i, Sent)
    {
      assert AtStage(s, i, Sent);
    }
  }

  lemma SeeKeepsInv(s: State, a: Action)
    requires Inv(s) && (a.SeeExpired? || a.SeeFull?) && Apply(s, a).Some?
    ensures Inv(Apply(s, a).value)
  {
    StageKeepsTraffic(s, a.job, Apply(s, a).value);
  }

  lemma ForgetKeepsInv(s: State, j: nat)
    requires Inv(s) && Apply(s, Forget(j)).Some?
    ensures Inv(Apply(s, Forget(j)).value)
  {
    var t := Apply(s, Forget(j)).value;
    StageKeepsTraffic(s, j, t);
    forall id | id in t.queued
      ensures BeforeDequeue(t, t.queued[id]) && t.jobs[t.queued[id]].id == id
    {
      assert BeforeDequeue(s, s.queued[id]) && s.jobs[s.queued[id]].id == id;
    }
  }

  lemma SendKeepsInv(s: State, j: nat)
    requires Inv(s) && Apply(s, Send(j)).Some?
    ensures Inv(Apply(s, Send(j)).value)
  {
    var t := Apply(s, Send(j)).value;
    NotSent(s, j);
    assert j in t.channel;
    forall i | i in t.sent
      ensures AtStage(t, i, Sent)
    {
      assert i != j ==> AtStage(s, i, Sent);
    }
    forall id | id in t.queued
      ensures BeforeDequeue(t, t.queued[id]) && t.jobs[t.queued[id]].id == id
    {
      assert BeforeDequeue(s, s.queued[id]) && s.jobs[s.queued[id]].id == id;
      assert s.queued[id] in s.channel ==> s.queued[id] in t.channel;
    }
  }

  lemma CancelKeepsInv(s: State, id: string)
    requires Inv(s)
    ensures Inv(Apply(s, Cancel(id)).value)
  {
    var t := Apply(s, Cancel(id)).value;
    ContextsKeepInv(s, t.(queued := s.queued));
  }

  /* ---------- the worker ---------- */

  lemma ReceiveKeepsInv(s: State)
    requires Inv(s) && Apply(s, Receive).Some?
    ensures Inv(Apply(s, Receive).value)
  {
    var t := Apply(s, Receive).value;
    assert Decided(t) == s.received;
    forall id | id in t.queued
      ensures BeforeDequeue(t, t.queued[id]) && t.jobs[t.queued[id]].id == id
    {
      assert BeforeDequeue(s, s.queued[id]) && s.jobs[s.queued[id]].id == id;
    }
  }

  lemma DequeueKeepsInv(s: State)
    requires Inv(s) && Apply(s, Dequeue).Some?
    ensures Inv(Apply(s, Dequeue).value)
  {
    var t := Apply(s, Dequeue).value;
    forall id | id in t.queued
      ensures BeforeDequeue(t, t.queued[id]) && t.jobs[t.queued[id]].id == id
    {
      assert BeforeDequeue(s, s.queued[id]) && s.jobs[s.queued[id]].id == id;
      assert id != s.jobs[s.worker.job].id;
    }
  }

  lemma LastDecided(s: State)
    requires Inv(s) && Undecided(s.worker).Some?
    ensures s.received == Decided(s) + [s.worker.job] && s.worker.job !in Decided(s)
  {
    var n := |s.received| - 1;
    assert s.received == s.received[..n] + [s.received[n]];
    forall i | 0 <= i < n
      ensures s.received[i] != s.worker.job
    {
      assert s.sent[i] == s.received[i] && s.sent[n] == s.received[n];
    }
  }

  lemma SkipKeepsTraffic(s: State)
    requires Inv(s) && s.worker.Checking? && Apply(s, Check).Some? && s.jobs[s.worker.job].ctxDone
    ensures Traffic(Apply(s, Check).value)
  {
    LastDecided(s);
    WithoutDrop(Decided(s), s.skipped, s.worker.job);
    WithoutAppend(Decided(s), s.skipped + {s.worker.job}, s.worker.job);
  }

  lemma CheckKeepsInv(s: State)
    requires Inv(s) && Apply(s, Check).Some?
    ensures Inv(Apply(s, Check).value)
  {
    if s.jobs[s.worker.job].ctxDone {
      SkipKeepsTraffic(s);
    }
  }

  lemma ActivateKeepsInv(s: State)
    requires Inv(s) && Apply(s, Activate).Some?
    ensures Inv(Apply(s, Activate).value)
  {
    LastDecided(s);
    WithoutAppend(Decided(s), s.skipped, s.worker.job);
    assert s.worker.job !in s.skipped;
  }

  lemma ReleaseKeepsInv(s: State)
    requires Inv(s) && Apply(s, Release).Some?
    ensures Inv(Apply(s, Release).value)
  {
    ContextsKeepInv(s, Apply(s, Release).value.(worker := s.worker));
  }

  lemma ClearKeepsInv(s: State)
    requires Inv(s) && Apply(s, Clear).Some?
    ensures Inv(Apply(s, Clear).value)
  {
    assert AtStage(s, s.worker.job, Sent);
  }

  lemma StepKeepsInv(s: State, a: Action)
    requires Inv(s) && Apply(s, a).Some?
    ensures Inv(Apply(s, a).value)
  {
    match a
    case Submit(_) => ContextsKeepInv(s, Apply(s, a).value);
    case Timeout(_) => ContextsKeepInv(s, Apply(s, a).value);
    case Reserve(j) => ReserveKeepsInv(s, j);
    case Send(j) => SendKeepsInv(s, j);
    case SeeExpired(_) => SeeKeepsInv(s, a);
    case SeeFull(_) => SeeKeepsInv(s, a);
    case Forget(j) => ForgetKeepsInv(s, j);
    case Receive => ReceiveKeepsInv(s);
    case Dequeue => DequeueKeepsInv(s);
    case Check => CheckKeepsInv(s);
    case Activate => ActivateKeepsInv(s);
    case Cancel(id) => CancelKeepsInv(s, id);
    case Shutdown => ContextsKeepInv(s, Apply(s, a).value);
    case Finish =>
    case Clear => ClearKeepsInv(s);
    case Release => ReleaseKeepsInv(s);
  }

  lemma {:induction false} ExecuteKeepsInv(s: State, steps: seq<Action>)
    requires Inv(s) && Execute(s, steps).Some?
    ensures Inv(Execute(s, steps).value)
    decreases |steps|
  {
    if steps != [] {
      StepKeepsInv(s, steps[0]);
      ExecuteKeepsInv(Apply(s, steps[0]).value, steps[1..]);
    }
  }

  lemma ReachableInv(depth: nat, s: State)
    requires Reachable(depth, s)
    ensures Inv(s)
  {
    var steps: seq<Action> :| Execute(Initial(depth), steps) == Some(s);
    ExecuteKeepsInv(Initial(depth), steps);
  }

  /* ---------- cancellation ---------- */

  /** A job whose context has ended and which the worker has not yet let pass. */
  predicate Doomed(s: State, j: nat) {
    j < |s.jobs| && s.jobs[j].ctxDone && j !in s.started && s.worker != Passed(j)
  }

  lemma StepKeepsDoomed(s: State, a: Action, j: nat)
    requires Doomed(s, j) && Apply(s, a).Some?
    ensures Doomed(Apply(s, a).value, j)
  {
  }

  lemma {:induction false} DoomedForever(s: State, steps: seq<Action>, j: nat)
    requires Doomed(s, j) && Execute(s, steps).Some?
    ensures Doomed(Execute(s, steps).value, j)
    decreases |steps|
  {
    if steps != [] {
      StepKeepsDoomed(s, steps[0], j);
      DoomedForever(Apply(s, steps[0]).value, steps[1..], j);
    }
  }

  /** If a cancellation finds its id in `queued`, the job found there never reaches the provider,
      whatever happens later and even if the id is used again. */
  lemma CancelledWhileQueuedNeverStarts(depth: nat, s: State, id: string, steps: seq<Action>, t: State)
    requires Reachable(depth, s) && id !in s.active && id in s.queued
    requires Execute(s, [Cancel(id)] + steps) == Some(t)
    ensures s.queued[id] !in t.started
  {
    ReachableInv(depth, s);
    var j := s.queued[id];
    assert BeforeDequeue(s, j);
    NotYetStarted(s, j);
    assert ([Cancel(id)] + steps)[1..] == steps;
    DoomedForever(Apply(s, Cancel(id)).value, steps, j);
  }

  lemma NotYetStarted(s: State, j: nat)
    requires Inv(s) && BeforeDequeue(s, j)
    ensures j !in s.started && s.worker != Passed(j)
  {
    if j in s.started {
      WithoutSubset(Decided(s), s.skipped, j);
      InOnePlace(s, j);
      if s.worker == Received(j) {
        LastDecided(s);
      }
    }
    if s.worker == Passed(j) {
      InOnePlace(s, j);
    }
  }

  /** A received job is neither on the channel nor still with its enqueuer. */
  lemma InOnePlace(s: State, j: nat)
    requires Inv(s) && j in s.received
    ensures j !in s.channel && AtStage(s, j, Sent)
  {
    var i :| 0 <= i < |s.received| && s.received[i] == j;
    assert s.sent[i] == j;
    forall k | 0 <= k < |s.channel|
      ensures s.channel[k] != j
    {
      assert s.sent[|s.received| + k] == s.channel[k];
    }
  }

  /* ---------- order and bounds ---------- */

  lemma {:induction false} WithoutDistinct(q: seq<nat>, drop: set<nat>)
    requires Distinct(q)
    ensures Distinct(Without(q, drop))
  {
    if q != [] {
      var n := |q| - 1;
      WithoutDistinct(q[..n], drop);
      var w := Without(q[..n], drop);
      forall i | 0 <= i < |w|
        ensures w[i] != q[n]
      {
        assert w[i] in w;
        WithoutSubset(q[..n], drop, w[i]);
      }
    }
  }

  /** Jobs start in the order they were put on the channel, each at most once, and only jobs whose
      context had ended are passed over. */
  lemma StartsInSendOrder(depth: nat, s: State)
    requires Reachable(depth, s)
    ensures Distinct(s.started) && Decided(s) <= s.sent && s.started == Without(Decided(s), s.skipped)
    ensures forall j :: j in s.skipped ==> j < |s.jobs| && s.jobs[j].ctxDone
  {
    ReachableInv(depth, s);
    assert Distinct(Decided(s)) by {
      forall i, j | 0 <= i < j < |Decided(s)|
        ensures Decided(s)[i] != Decided(s)[j]
      {
        assert s.sent[i] == Decided(s)[i] && s.sent[j] == Decided(s)[j];
      }
    }
    WithoutDistinct(Decided(s), s.skipped);
  }

  lemma {:induction false} DepthIsFixed(s: State, steps: seq<Action>)
    requires Execute(s, steps).Some?
    ensures Execute(s, steps).value.depth == s.depth
    decreases |steps|
  {
    if steps != [] {
      DepthIsFixed(Apply(s, steps[0]).value, steps[1..]);
    }
  }

  /** The channel is bounded and at most one job is active: the one the worker is running. */
  lemma Bounded(depth: nat, s: State)
    requires Reachable(depth, s)
    ensures |s.channel| <= depth
    ensures forall id :: id in s.active ==>
            (s.worker == Running(s.active[id]) || s.worker == Finished(s.active[id])) && s.active[id] in s.started
    ensures forall x, y :: x in s.active && y in s.active ==> x == y
  {
    ReachableInv(depth, s);
    var steps: seq<Action> :| Execute(Initial(depth), steps) == Some(s);
    DepthIsFixed(Initial(depth), steps);
    ExecuteKeepsRunning(Initial(depth), steps);
  }

  predicate RunningStarted(s: State) { s.worker.Running? || s.worker.Finished? ==> s.worker.job in s.started }

  lemma {:induction false} ExecuteKeepsRunning(s: State, steps: seq<Action>)
    requires RunningStarted(s) && Execute(s, steps).Some?
    ensures RunningStarted(Execute(s, steps).value)
    decreases |steps|
  {
    if steps != [] {
      StepKeepsRunning(s, steps[0]);
      ExecuteKeepsRunning(Apply(s, steps[0]).value, steps[1..]);
    }
  }

  lemma StepKeepsRunning(s: State, a: Action)
    requires RunningStarted(s) && Apply(s, a).Some?
    ensures RunningStarted(Apply(s, a).value)
  {
    if a.Activate? {
      assert (s.started + [s.worker.job])[|s.started|] == s.worker.job;
    }
  }
}
