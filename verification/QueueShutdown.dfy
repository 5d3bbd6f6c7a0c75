/**
 What shutting down cancels. `queued` is keyed by request id, so removing one job's entry can
 remove another's: exactly then a waiting job can be missed by a cancellation or by the shutdown.
 */
module QueueShutdown {
  import opened Common
  import opened QueueMachine
  import opened QueueTheorems

  /** A job whose context has ended or that a cancellation by id and the shutdown will find. */
  predicate Covered(s: State, j: nat) {
    j < |s.jobs| && (s.jobs[j].ctxDone || (s.jobs[j].id in s.queued && s.queued[s.jobs[j].id] == j))
  }

  ghost predicate AllCovered(s: State) { forall j: nat :: BeforeDequeue(s, j) ==> Covered(s, j) }

  /** The job on whose behalf a step removes an entry of `queued` by id. */
  function Remover(s: State, a: Action): Option<nat> {
    if a.Forget? && a.job < |s.jobs| then Some(a.job)
    else if a.Dequeue? && s.worker.Received? && s.worker.job < |s.jobs| then Some(s.worker.job)
    else None
  }

  /** A removal that hits the entry of another job with the same id, still alive. */
  predicate StrayRemoval(s: State, a: Action) {
    Remover(s, a).Some? &&
    var i := Remover(s, a).value;
    var id := s.jobs[i].id;
    id in s.queued && s.queued[id] != i && s.queued[id] < |s.jobs| && !s.jobs[s.queued[id]].ctxDone
  }

  lemma RemovalKeepsCovered(s: State, a: Action)
    requires Inv(s) && AllCovered(s) && Remover(s, a).Some? && Apply(s, a).Some? && !StrayRemoval(s, a)
    ensures AllCovered(Apply(s, a).value)
  {
    var t := Apply(s, a).value;
    var i := Remover(s, a).value;
    forall j: nat | BeforeDequeue(t, j)
      ensures Covered(t, j)
    {
      assert BeforeDequeue(s, j);
      if !s.jobs[j].ctxDone && s.jobs[j].id == s.jobs[i].id {
        assert s.queued[s.jobs[j].id] == j;
        assert j == i;
        Gone(s, a);
      }
    }
  }

  /** After its own removal step a job is past the point where it could be found. */
  lemma Gone(s: State, a: Action)
    requires Inv(s) && Remover(s, a).Some? && Apply(s, a).Some?
    ensures !BeforeDequeue(Apply(s, a).value, Remover(s, a).value)
            || Apply(s, a).value.jobs[Remover(s, a).value].ctxDone
  {
    if a.Dequeue? {
      InOnePlace(s, s.worker.job);
    }
  }

  lemma StepKeepsCovered(s: State, a: Action)
    requires Inv(s) && AllCovered(s) && Apply(s, a).Some? && !StrayRemoval(s, a)
    ensures AllCovered(Apply(s, a).value)
  {
    if Remover(s, a).Some? {
      RemovalKeepsCovered(s, a);
    } else {
      OtherStepKeepsCovered(s, a);
    }
  }

  lemma OnChannelBefore(s: State, a: Action, j: nat)
    requires Apply(s, a).Some? && j in Apply(s, a).value.channel
    ensures j in s.channel || a == Send(j)
  {
    if a.Send? {
      assert j in s.channel + [a.job];
    }
  }

  lemma WithWorkerBefore(s: State, a: Action, j: nat)
    requires Apply(s, a).Some? && Apply(s, a).value.worker == Received(j)
    ensures s.worker == Received(j) || j in s.channel
  {
  }

  lemma WithEnqueuerBefore(s: State, a: Action, j: nat)
    requires Apply(s, a).Some? && j < |Apply(s, a).value.jobs| && a != Reserve(j)
    requires Apply(s, a).value.jobs[j].stage in {Reserved, Expiring, Refusing}
    ensures j < |s.jobs| && s.jobs[j].stage in {Reserved, Expiring, Refusing}
  {
  }

  lemma TakenUp(s: State, j: nat)
    requires Inv(s) && (j in s.channel || s.worker == Received(j))
    ensures j < |s.jobs|
  {
    assert j in s.sent;
    assert AtStage(s, j, Sent);
  }

  /** Apart from Reserve no step puts a job where it waits. */
  lemma WaitedBefore(s: State, a: Action, j: nat)
    requires Inv(s) && Apply(s, a).Some? && BeforeDequeue(Apply(s, a).value, j)
    ensures BeforeDequeue(s, j) || a == Reserve(j)
  {
    var t := Apply(s, a).value;
    if t.worker == Received(j) {
      WithWorkerBefore(s, a, j);
      TakenUp(s, j);
    } else if j in t.channel {
      OnChannelBefore(s, a, j);
      if a != Send(j) {
        TakenUp(s, j);
      }
    } else if a != Reserve(j) {
      WithEnqueuerBefore(s, a, j);
    }
  }

  lemma ReserveKeepsCovered(s: State, a: Action, j: nat)
    requires Inv(s) && a == Reserve(j) && Apply(s, a).Some? && BeforeDequeue(Apply(s, a).value, j)
    ensures Covered(Apply(s, a).value, j)
  {
    NotSent(s, j);
  }

  lemma StaysCovered(s: State, a: Action, j: nat)
    requires Covered(s, j) && Apply(s, a).Some? && !a.Forget? && !a.Dequeue?
    ensures Covered(Apply(s, a).value, j)
  {
  }

  lemma OtherStepKeepsCovered(s: State, a: Action)
    requires Inv(s) && AllCovered(s) && Apply(s, a).Some? && !a.Forget? && !a.Dequeue?
    ensures AllCovered(Apply(s, a).value)
  {
    forall j: nat | BeforeDequeue(Apply(s, a).value, j)
      ensures Covered(Apply(s, a).value, j)
    {
      WaitedBefore(s, a, j);
      if a == Reserve(j) {
        ReserveKeepsCovered(s, a, j);
      } else {
        StaysCovered(s, a, j);
      }
    }
  }

  /** A stray removal leaves a waiting, uncancelled job that nothing will find. */
  lemma StrayRemovalUncovers(s: State, a: Action)
    requires Inv(s) && Apply(s, a).Some? && StrayRemoval(s, a)
    ensures !AllCovered(Apply(s, a).value)
  {
    var j := s.queued[s.jobs[Remover(s, a).value].id];
    assert BeforeDequeue(s, j);
    assert BeforeDequeue(Apply(s, a).value, j);
    assert !Covered(Apply(s, a).value, j);
  }

  /* ---------- whole behaviours ---------- */

  ghost predicate CoveredThroughout(s: State, steps: seq<Action>)
    requires Execute(s, steps).Some?
    decreases |steps|
  {
    AllCovered(s) && (steps != [] ==> CoveredThroughout(Apply(s, steps[0]).value, steps[1..]))
  }

  predicate NoStrayRemoval(s: State, steps: seq<Action>)
    requires Execute(s, steps).Some?
    decreases |steps|
  {
    steps != [] ==> !StrayRemoval(s, steps[0]) && NoStrayRemoval(Apply(s, steps[0]).value, steps[1..])
  }

  lemma {:induction false} CoveredIffFrom(s: State, steps: seq<Action>)
    requires Inv(s) && AllCovered(s) && Execute(s, steps).Some?
    ensures CoveredThroughout(s, steps) <==> NoStrayRemoval(s, steps)
    decreases |steps|
  {
    if steps != [] {
      var t := Apply(s, steps[0]).value;
      StepKeepsInv(s, steps[0]);
      if StrayRemoval(s, steps[0]) {
        StrayRemovalUncovers(s, steps[0]);
      } else {
        StepKeepsCovered(s, steps[0]);
        CoveredIffFrom(t, steps[1..]);
      }
    }
  }

  /** Throughout a behaviour every waiting job is in `queued` or cancelled, if and only if no step
      removes the entry of another live job that uses the same id. */
  lemma CoveredIff(depth: nat, steps: seq<Action>)
    requires Execute(Initial(depth), steps).Some?
    ensures CoveredThroughout(Initial(depth), steps) <==> NoStrayRemoval(Initial(depth), steps)
  {
    CoveredIffFrom(Initial(depth), steps);
  }

  predicate UniqueIds(s: State) { forall i, j :: 0 <= i < j < |s.jobs| ==> s.jobs[i].id != s.jobs[j].id }

  lemma UniqueBefore(s: State, a: Action)
    requires Apply(s, a).Some? && UniqueIds(Apply(s, a).value)
    ensures UniqueIds(s)
  {
    var t := Apply(s, a).value;
    assert |s.jobs| <= |t.jobs| && forall j :: 0 <= j < |s.jobs| ==> t.jobs[j].id == s.jobs[j].id;
  }

  lemma {:induction false} UniqueIdsAreSafe(s: State, steps: seq<Action>)
    requires Inv(s) && Execute(s, steps).Some? && UniqueIds(Execute(s, steps).value)
    ensures UniqueIds(s) && NoStrayRemoval(s, steps)
    decreases |steps|
  {
    if steps != [] {
      StepKeepsInv(s, steps[0]);
      UniqueIdsAreSafe(Apply(s, steps[0]).value, steps[1..]);
      UniqueBefore(s, steps[0]);
      if Remover(s, steps[0]).Some? {
        OwnEntry(s, Remover(s, steps[0]).value);
      }
    }
  }

  lemma OwnEntry(s: State, i: nat)
    requires Inv(s) && UniqueIds(s) && i < |s.jobs|
    ensures s.jobs[i].id in s.queued ==> s.queued[s.jobs[i].id] == i
  {
    if s.jobs[i].id in s.queued {
      assert BeforeDequeue(s, s.queued[s.jobs[i].id]);
    }
  }

  /* ---------- shutdown ---------- */

  ghost predicate ShutdownOk(s: State) { s.shutdown ==> forall j: nat :: BeforeDequeue(s, j) ==> s.jobs[j].ctxDone }

  lemma ShutdownEnds(s: State, j: nat)
    requires Covered(s, j)
    ensures EndListed(s)[j].ctxDone
  {
  }

  lemma StaysEnded(s: State, a: Action, j: nat)
    requires j < |s.jobs| && s.jobs[j].ctxDone && Apply(s, a).Some?
    ensures j < |Apply(s, a).value.jobs| && Apply(s, a).value.jobs[j].ctxDone
  {
  }

  lemma RefusedAfterShutdown(s: State, j: nat)
    requires s.shutdown && Apply(s, Reserve(j)).Some?
    ensures j < |s.jobs| && Apply(s, Reserve(j)).value.jobs[j].ctxDone
  {
  }

  lemma OnlyShutdownSetsIt(s: State, a: Action)
    requires Apply(s, a).Some?
    ensures Apply(s, a).value.shutdown == (s.shutdown || a.Shutdown?)
  {
  }

  lemma StepKeepsShutdown(s: State, a: Action)
    requires Inv(s) && AllCovered(s) && ShutdownOk(s) && Apply(s, a).Some?
    ensures ShutdownOk(Apply(s, a).value)
  {
    OnlyShutdownSetsIt(s, a);
    forall j: nat | Apply(s, a).value.shutdown && BeforeDequeue(Apply(s, a).value, j)
      ensures Apply(s, a).value.jobs[j].ctxDone
    {
      WaitedBefore(s, a, j);
      if a.Shutdown? {
        ShutdownEnds(s, j);
      } else if a == Reserve(j) {
        RefusedAfterShutdown(s, j);
      } else {
        StaysEnded(s, a, j);
      }
    }
  }

  lemma {:induction false} ExecuteKeepsShutdown(s: State, steps: seq<Action>)
    requires Inv(s) && AllCovered(s) && ShutdownOk(s) && Execute(s, steps).Some? && NoStrayRemoval(s, steps)
    ensures Inv(Execute(s, steps).value) && ShutdownOk(Execute(s, steps).value)
    decreases |steps|
  {
    if steps != [] {
      StepKeepsInv(s, steps[0]);
      StepKeepsCovered(s, steps[0]);
      StepKeepsShutdown(s, steps[0]);
      ExecuteKeepsShutdown(Apply(s, steps[0]).value, steps[1..]);
    }
  }

  /** Accepted, neither cancelled nor started. */
  predicate Left(s: State, j: nat) {
    j < |s.jobs| && !s.jobs[j].ctxDone && j !in s.started && s.jobs[j].stage != Fresh && s.jobs[j].stage != Rejected
  }

  lemma {:induction false} WithoutComplete(q: seq<nat>, drop: set<nat>, j: nat)
    requires j in q && j !in drop
    ensures j in Without(q, drop)
  {
    if q[|q| - 1] != j {
      WithoutComplete(q[..|q| - 1], drop, j);
    }
  }

  lemma LeftIsHeld(s: State, j: nat)
    requires Inv(s) && ShutdownOk(s) && s.shutdown && Left(s, j)
    ensures s.worker == Checking(j) || s.worker == Passed(j)
  {
    assert !BeforeDequeue(s, j);
    assert j in s.sent && j in s.received;
    if j in Decided(s) {
      WithoutComplete(Decided(s), s.skipped, j);
    } else {
      LastDecided(s);
    }
  }

  /** As long as no removal hits another live job's entry, after the shutdown step every accepted job has
      been started or cancelled, except at most one: the one the worker holds between the two maps. */
  lemma ShutdownLeavesAtMostOne(depth: nat, steps: seq<Action>, s: State, i: nat, j: nat)
    requires Execute(Initial(depth), steps) == Some(s) && NoStrayRemoval(Initial(depth), steps)
    requires s.shutdown && Left(s, i) && Left(s, j)
    ensures i == j && (s.worker == Checking(i) || s.worker == Passed(i))
  {
    ExecuteKeepsShutdown(Initial(depth), steps);
    LeftIsHeld(s, i);
    LeftIsHeld(s, j);
  }

  /** In particular when no request id is used twice. */
  lemma UniqueIdsLeaveAtMostOne(depth: nat, steps: seq<Action>, s: State, i: nat, j: nat)
    requires Execute(Initial(depth), steps) == Some(s) && UniqueIds(s)
    requires s.shutdown && Left(s, i) && Left(s, j)
    ensures i == j && (s.worker == Checking(i) || s.worker == Passed(i))
  {
    UniqueIdsAreSafe(Initial(depth), steps);
    ShutdownLeavesAtMostOne(depth, steps, s, i, j);
  }

  /* ---------- an id that is used again ---------- */

  /** x is queued, cancelled and queued again before the worker gets to the first job. */
  const REUSE: seq<Action> :=
    [Submit("x"), Reserve(0), Send(0), Cancel("x"), Submit("x"), Reserve(1), Send(1), Receive, Dequeue, Check, Shutdown]

  const REUSED := State(
    2, [Job("x", true, Sent), Job("x", false, Sent)], map[], map[], [1], true, Waiting, [0, 1], [0], [], {0})

  lemma Unroll(s: State, i: nat, t: State)
    requires i < |REUSE| && Apply(s, REUSE[i]) == Some(t)
    ensures Execute(s, REUSE[i..]) == Execute(t, REUSE[i + 1..])
  {
    assert REUSE[i..][1..] == REUSE[i + 1..];
  }

  const CANCELLED := Job("x", true, Sent)
  const JOB := Job("x", false, Sent)
  const PENDING := State(2, [JOB], map[], map["x" := 0], [0], false, Waiting, [0], [], [], {})
  const AGAIN := State(2, [CANCELLED, JOB], map[], map["x" := 1], [0, 1], false, Waiting, [0, 1], [], [], {})

  const SUBMITTED := Initial(2).(jobs := [JOB.(stage := Fresh)])
  const RESERVED := SUBMITTED.(jobs := [JOB.(stage := Reserved)], queued := map["x" := 0])

  lemma FirstIsReserved()
    ensures Apply(Initial(2), Submit("x")) == Some(SUBMITTED) && Apply(SUBMITTED, Reserve(0)) == Some(RESERVED)
  {
    assert Initial(2).jobs + SUBMITTED.jobs == SUBMITTED.jobs && SUBMITTED.jobs[0 := RESERVED.jobs[0]] == RESERVED.jobs;
    assert SUBMITTED.queued["x" := 0] == RESERVED.queued;
  }

  lemma FirstGoesOut()
    ensures Apply(RESERVED, Send(0)) == Some(PENDING)
  {
    assert RESERVED.jobs[0 := JOB] == [JOB] && RESERVED.channel + [0] == [0];
  }

  lemma FirstIsSent()
    ensures Execute(Initial(2), REUSE) == Execute(PENDING, REUSE[3..])
  {
    FirstIsReserved();
    FirstGoesOut();
    Unroll(Initial(2), 0, SUBMITTED);
    Unroll(SUBMITTED, 1, RESERVED);
    Unroll(RESERVED, 2, PENDING);
    assert REUSE[0..] == REUSE;
  }

  const WITHDRAWN := PENDING.(jobs := [CANCELLED], queued := map[])
  const RESUBMITTED := WITHDRAWN.(jobs := [CANCELLED, JOB.(stage := Fresh)])
  const RERESERVED := RESUBMITTED.(jobs := [CANCELLED, JOB.(stage := Reserved)], queued := map["x" := 1])

  lemma FirstIsCancelled()
    ensures Apply(PENDING, Cancel("x")) == Some(WITHDRAWN) && Apply(WITHDRAWN, Submit("x")) == Some(RESUBMITTED)
  {
    assert PENDING.jobs[0 := CANCELLED] == WITHDRAWN.jobs && PENDING.queued - {"x"} == WITHDRAWN.queued;
    assert WITHDRAWN.jobs + [RESUBMITTED.jobs[1]] == RESUBMITTED.jobs;
  }

  lemma SecondGoesOut()
    ensures Apply(RESUBMITTED, Reserve(1)) == Some(RERESERVED) && Apply(RERESERVED, Send(1)) == Some(AGAIN)
  {
    assert RESUBMITTED.jobs[1 := RERESERVED.jobs[1]] == RERESERVED.jobs && RERESERVED.jobs[1 := JOB] == AGAIN.jobs;
    assert RESUBMITTED.queued["x" := 1] == RERESERVED.queued;
    assert RERESERVED.channel + [1] == AGAIN.channel && RERESERVED.sent + [1] == AGAIN.sent;
  }

  lemma CancelledAndSentAgain()
    ensures Execute(PENDING, REUSE[3..]) == Execute(AGAIN, REUSE[7..])
  {
    FirstIsCancelled();
    SecondGoesOut();
    Unroll(PENDING, 3, WITHDRAWN);
    Unroll(WITHDRAWN, 4, RESUBMITTED);
    Unroll(RESUBMITTED, 5, RERESERVED);
    Unroll(RERESERVED, 6, AGAIN);
  }

  const REMOVED := AGAIN.(channel := [1], received := [0], queued := map[], worker := Checking(0))

  lemma FirstTakesItsEntry()
    ensures Execute(AGAIN, REUSE[7..]) == Execute(REMOVED, REUSE[9..])
  {
    var s8 := AGAIN.(channel := [1], received := [0], worker := Received(0));
    assert AGAIN.channel[1..] == s8.channel && AGAIN.received + [0] == s8.received
           && s8.queued - {"x"} == REMOVED.queued;
    Unroll(AGAIN, 7, s8);
    Unroll(s8, 8, REMOVED);
  }

  lemma SecondIsMissed()
    ensures Execute(REMOVED, REUSE[9..]) == Some(REUSED)
  {
    var s10 := REMOVED.(worker := Waiting, skipped := {0});
    assert REMOVED.skipped + {0} == s10.skipped && EndListed(s10) == s10.jobs;
    Unroll(REMOVED, 9, s10);
    Unroll(s10, 10, REUSED);
    assert REUSE[11..] == [];
  }

  /** The second job is then on the channel, alive, after the shutdown: it will be started. */
  lemma ReusedIdSurvivesShutdown()
    ensures Execute(Initial(2), REUSE) == Some(REUSED) && StillOnChannel()
  {
    FirstIsSent();
    CancelledAndSentAgain();
    FirstTakesItsEntry();
    SecondIsMissed();
  }

  predicate StillOnChannel() {
    && REUSED.shutdown && REUSED.channel == [1] && !REUSED.jobs[1].ctxDone
    && "x" !in REUSED.queued && "x" !in REUSED.active
  }
}
