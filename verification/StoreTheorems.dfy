/**
 Each store operation as the calls it makes when nothing fails, stopped after any of them by a
 crash; that rollback undoes activation; and what deletion gives back.
 */
module StoreTheorems {
  import opened Common
  import opened Bytes
  import opened StoreFiles

  type Hash = Bytes -> string

  /* ---------- running a list of calls ---------- */

  /** Every call is one the store may make where it stands, and the system accepts it. */
  ghost predicate SafeRun(hash: Hash, ok: Verified, d: ModelDir, calls: seq<Call>)
    decreases |calls|
  {
    calls == [] ||
    (Safe(hash, ok, d, calls[0]) && Do(d, calls[0]).Some? && SafeRun(hash, ok, Do(d, calls[0]).value, calls[1..]))
  }

  /** A crash after any number of the calls leaves a good directory. */
  lemma {:induction false} CrashAnywhere(hash: Hash, ok: Verified, d: ModelDir, calls: seq<Call>, k: nat)
    requires DirOk(hash, ok, d) && SafeRun(hash, ok, d, calls) && k <= |calls|
    ensures Execute(d, calls[..k]).Some? && DirOk(hash, ok, Execute(d, calls[..k]).value)
    decreases |calls|
  {
    if k > 0 {
      SafeCallKeepsDir(hash, ok, d, calls[0]);
      CrashAnywhere(hash, ok, Do(d, calls[0]).value, calls[1..], k - 1);
      assert calls[..k][1..] == calls[1..][..k - 1];
    }
  }

  lemma {:induction false} ExecuteConcat(d: ModelDir, a: seq<Call>, b: seq<Call>)
    requires Execute(d, a).Some?
    ensures Execute(d, a + b) == Execute(Execute(d, a).value, b)
    decreases |a|
  {
    if a == [] {
      assert a + b == b;
    } else {
      assert (a + b)[1..] == a[1..] + b;
      ExecuteConcat(Do(d, a[0]).value, a[1..], b);
    }
  }

  lemma {:induction false} SafeConcat(hash: Hash, ok: Verified, d: ModelDir, a: seq<Call>, b: seq<Call>)
    requires SafeRun(hash, ok, d, a) && Execute(d, a).Some? && SafeRun(hash, ok, Execute(d, a).value, b)
    ensures SafeRun(hash, ok, d, a + b)
    decreases |a|
  {
    if a == [] {
      assert a + b == b;
    } else {
      assert (a + b)[1..] == a[1..] + b;
      SafeConcat(hash, ok, Do(d, a[0]).value, a[1..], b);
    }
  }

  lemma Step(hash: Hash, ok: Verified, d: ModelDir, calls: seq<Call>, e: ModelDir)
    requires calls != [] && Safe(hash, ok, d, calls[0]) && Do(d, calls[0]) == Some(e)
             && SafeRun(hash, ok, e, calls[1..])
    ensures SafeRun(hash, ok, d, calls) && Execute(d, calls) == Execute(e, calls[1..])
  {
  }

  /* ---------- activation ---------- */

  /** os.Remove of a link that may be left from an earlier crash. */
  function Clear(d: ModelDir, name: string): seq<Call> { if name in d.links then [Unlink(name)] else [] }

  /** The calls of ActivateVersion; n is the length of the record's JSON. */
  function ActivateCalls(d: ModelDir, m: string, v: string, n: nat): seq<Call> {
    Clear(d, NEXT) + PointAndRecord(d, m, v, n)
  }

  function PointAndRecord(d: ModelDir, m: string, v: string, n: nat): seq<Call> {
    [Link(NEXT, v), Switch(NEXT), WriteRollback(Torn(0)), WriteRollback(Json(Activation(m, v, d.current), n))]
  }

  function Activated(d: ModelDir, m: string, v: string, n: nat): ModelDir {
    d.(current := Some(v), links := d.links - {NEXT}, rollback := Some(Json(Activation(m, v, d.current), n)))
  }

  lemma ClearRuns(hash: Hash, ok: Verified, d: ModelDir, name: string)
    ensures SafeRun(hash, ok, d, Clear(d, name))
    ensures Execute(d, Clear(d, name)) == Some(d.(links := d.links - {name}))
  {
    if name in d.links {
      assert [Unlink(name)][1..] == [];
    } else {
      assert d.links - {name} == d.links;
    }
  }

  lemma PointAndRecordRuns(hash: Hash, ok: Verified, d: ModelDir, m: string, v: string, n: nat)
    requires DirOk(hash, ok, d) && HasModel(d, v) && NEXT !in d.links
    ensures SafeRun(hash, ok, d, PointAndRecord(d, m, v, n))
    ensures Execute(d, PointAndRecord(d, m, v, n)) == Some(Activated(d, m, v, n))
  {
    var calls := PointAndRecord(d, m, v, n);
    var linked := d.(links := d.links[NEXT := v]);
    var switched := d.(current := Some(v));
    var torn := switched.(rollback := Some(Torn(0)));
    assert linked.links - {NEXT} == d.links == d.links - {NEXT};
    Step(hash, ok, torn, calls[3..], Activated(d, m, v, n));
    assert calls[2..][1..] == calls[3..];
    Step(hash, ok, switched, calls[2..], torn);
    assert calls[1..][1..] == calls[2..];
    Step(hash, ok, linked, calls[1..], switched);
    Step(hash, ok, d, calls, linked);
  }

  lemma ActivateRuns(hash: Hash, ok: Verified, d: ModelDir, m: string, v: string, n: nat)
    requires DirOk(hash, ok, d) && HasModel(d, v)
    ensures SafeRun(hash, ok, d, ActivateCalls(d, m, v, n))
    ensures Execute(d, ActivateCalls(d, m, v, n)) == Some(Activated(d, m, v, n))
  {
    var e := d.(links := d.links - {NEXT});
    ClearRuns(hash, ok, d, NEXT);
    PointAndRecordRuns(hash, ok, e, m, v, n);
    assert e.links - {NEXT} == e.links;
    SafeConcat(hash, ok, d, Clear(d, NEXT), PointAndRecord(d, m, v, n));
    ExecuteConcat(d, Clear(d, NEXT), PointAndRecord(d, m, v, n));
  }

  /** Activation may be stopped after any call: the store stays good. */
  lemma ActivationCrashSafe(hash: Hash, ok: Verified, d: ModelDir, m: string, v: string, n: nat, k: nat)
    requires DirOk(hash, ok, d) && HasModel(d, v) && k <= |ActivateCalls(d, m, v, n)|
    ensures var e := Execute(d, ActivateCalls(d, m, v, n)[..k]); e.Some? && DirOk(hash, ok, e.value)
  {
    ActivateRuns(hash, ok, d, m, v, n);
    CrashAnywhere(hash, ok, d, ActivateCalls(d, m, v, n), k);
  }

  /* ---------- rollback ---------- */

  predicate Readable(d: ModelDir) { d.rollback.Some? && d.rollback.value.Json? && d.rollback.value.record.Activation? }

  /** The calls of RollbackLatest where the record can be read and is about this model. */
  function RollbackCalls(d: ModelDir): seq<Call>
    requires Readable(d)
  {
    match RollbackTarget(d)
    case None => [RemoveCurrent, RemoveRollback]
    case Some(p) => Clear(d, BACK) + [Link(BACK, p), Switch(BACK), RemoveRollback]
  }

  lemma BackRuns(hash: Hash, ok: Verified, d: ModelDir, p: string)
    requires DirOk(hash, ok, d) && HasModel(d, p) && BACK !in d.links && d.rollback.Some?
    ensures SafeRun(hash, ok, d, [Link(BACK, p), Switch(BACK), RemoveRollback])
    ensures Execute(d, [Link(BACK, p), Switch(BACK), RemoveRollback]) == Some(d.(current := Some(p), rollback := None))
  {
    var calls := [Link(BACK, p), Switch(BACK), RemoveRollback];
    var linked := d.(links := d.links[BACK := p]);
    var switched := d.(current := Some(p));
    assert linked.links - {BACK} == d.links;
    Step(hash, ok, switched, calls[2..], switched.(rollback := None));
    assert calls[1..][1..] == calls[2..];
    Step(hash, ok, linked, calls[1..], switched);
    Step(hash, ok, d, calls, linked);
  }

  lemma RollbackRuns(hash: Hash, ok: Verified, d: ModelDir)
    requires DirOk(hash, ok, d) && Readable(d) && (RollbackTarget(d) == None ==> d.current.Some?)
    ensures SafeRun(hash, ok, d, RollbackCalls(d))
    ensures Execute(d, RollbackCalls(d)) == Some(d.(current := RollbackTarget(d), rollback := None,
              links := if RollbackTarget(d).Some? then d.links - {BACK} else d.links))
  {
    match RollbackTarget(d)
    case None =>
      var calls := RollbackCalls(d);
      var removed := d.(current := None);
      Step(hash, ok, removed, calls[1..], removed.(rollback := None));
      Step(hash, ok, d, calls, removed);
    case Some(p) =>
      var e := d.(links := d.links - {BACK});
      ClearRuns(hash, ok, d, BACK);
      assert RollbackTarget(e) == Some(p);
      BackRuns(hash, ok, e, p);
      SafeConcat(hash, ok, d, Clear(d, BACK), [Link(BACK, p), Switch(BACK), RemoveRollback]);
      ExecuteConcat(d, Clear(d, BACK), [Link(BACK, p), Switch(BACK), RemoveRollback]);
  }

  lemma RollbackCrashSafe(hash: Hash, ok: Verified, d: ModelDir, k: nat)
    requires DirOk(hash, ok, d) && Readable(d) && (RollbackTarget(d) == None ==> d.current.Some?)
    requires k <= |RollbackCalls(d)|
    ensures var e := Execute(d, RollbackCalls(d)[..k]); e.Some? && DirOk(hash, ok, e.value)
  {
    RollbackRuns(hash, ok, d);
    CrashAnywhere(hash, ok, d, RollbackCalls(d), k);
  }

  /** RollbackLatest after ActivateVersion restores the previous `current`, absent or not, and every
      version. */
  lemma RollbackInvertsActivation(hash: Hash, ok: Verified, d: ModelDir, m: string, v: string, n: nat)
    requires DirOk(hash, ok, d) && HasModel(d, v)
    ensures var a := Execute(d, ActivateCalls(d, m, v, n));
            && a.Some? && a.value.current == Some(v) && Readable(a.value)
            && var b := Execute(a.value, RollbackCalls(a.value));
               b.Some? && b.value.current == d.current && b.value.versions == d.versions && b.value.temps == d.temps
  {
    ActivateRuns(hash, ok, d, m, v, n);
    var a := Activated(d, m, v, n);
    CrashAnywhere(hash, ok, d, ActivateCalls(d, m, v, n), |ActivateCalls(d, m, v, n)|);
    assert ActivateCalls(d, m, v, n)[..|ActivateCalls(d, m, v, n)|] == ActivateCalls(d, m, v, n);
    RollbackRuns(hash, ok, a);
  }

  /** A rollback to a version that was stopped anywhere before its last call can be run again and
      ends where an uninterrupted one does. */
  lemma RollbackRetry(hash: Hash, ok: Verified, d: ModelDir, k: nat)
    requires DirOk(hash, ok, d) && RollbackTarget(d).Some? && k < |RollbackCalls(d)|
    ensures var e := Execute(d, RollbackCalls(d)[..k]);
            && e.Some? && e.value.rollback == d.rollback && Readable(e.value)
            && Execute(e.value, RollbackCalls(e.value)) == Execute(d, RollbackCalls(d))
  {
    RollbackCrashSafe(hash, ok, d, k);
    var e := Execute(d, RollbackCalls(d)[..k]).value;
    PartialRollback(d, k);
    RollbackRuns(hash, ok, d);
    RollbackRuns(hash, ok, e);
  }

  /** Before its last call a rollback has changed nothing but `current` and its own link. */
  lemma PartialRollback(d: ModelDir, k: nat)
    requires RollbackTarget(d).Some? && k < |RollbackCalls(d)|
    ensures var e := Execute(d, RollbackCalls(d)[..k]);
            && e.Some? && e.value.links - {BACK} == d.links - {BACK}
            && e.value == d.(current := e.value.current, links := e.value.links)
  {
    var calls := RollbackCalls(d)[..k];
    var cleared := d.(links := d.links - {BACK});
    if BACK !in d.links {
      assert cleared == d;
      assert calls == [Link(BACK, RollbackTarget(d).value), Switch(BACK)][..k];
      PartialBack(d, RollbackTarget(d).value, k);
    } else if k > 0 {
      assert calls[0] == Unlink(BACK) && calls[1..] == [Link(BACK, RollbackTarget(d).value), Switch(BACK)][..k - 1];
      PartialBack(cleared, RollbackTarget(d).value, k - 1);
    }
  }

  lemma PartialBack(d: ModelDir, p: string, k: nat)
    requires k <= 2 && BACK !in d.links
    ensures var e := Execute(d, [Link(BACK, p), Switch(BACK)][..k]);
            && e.Some? && e.value.links - {BACK} == d.links
            && e.value == d.(current := e.value.current, links := e.value.links)
  {
    var calls := [Link(BACK, p), Switch(BACK)][..k];
    var linked := d.(links := d.links[BACK := p]);
    assert d.links - {BACK} == d.links && linked.links - {BACK} == d.links;
    if k == 1 {
      assert calls[1..] == [];
    } else if k == 2 {
      assert calls[1..][0] == Switch(BACK) && calls[1..][1..] == [];
      assert Execute(linked, calls[1..]) == Some(d.(current := Some(p)));
    }
  }

  /** RollbackLatest of model m when no call fails: a record that cannot be read or is about another
      model is refused. */
  function RolledBack(d: ModelDir, m: string): Option<ModelDir> {
    if !Readable(d) || d.rollback.value.record.model != m then None else Execute(d, RollbackCalls(d))
  }

  /** A rollback can be carried out if and only if its record can be read and is about this model, and
      the record names a version or `current` is there. */
  lemma RollbackRetryIff(hash: Hash, ok: Verified, d: ModelDir, m: string)
    requires DirOk(hash, ok, d)
    ensures RolledBack(d, m).Some? <==>
            Readable(d) && d.rollback.value.record.model == m && (RollbackTarget(d).Some? || d.current.Some?)
  {
    if Readable(d) && (RollbackTarget(d).Some? || d.current.Some?) {
      RollbackRuns(hash, ok, d);
    }
  }

  /** The store meets the failing case: after the first activation of a model, a rollback that is
      stopped after its first call leaves a record that can be read and a rollback that is refused. */
  lemma StoppedRollbackIsRefused(hash: Hash, ok: Verified, d: ModelDir, m: string, v: string, n: nat)
    requires DirOk(hash, ok, d) && HasModel(d, v) && d.current == None
    ensures var a := Execute(d, ActivateCalls(d, m, v, n));
            && a.Some? && RolledBack(a.value, m).Some?
            && var e := Execute(a.value, RollbackCalls(a.value)[..1]);
               e.Some? && DirOk(hash, ok, e.value) && Readable(e.value) && RolledBack(e.value, m) == None
  {
    ActivateRuns(hash, ok, d, m, v, n);
    ActivationCrashSafe(hash, ok, d, m, v, n, |ActivateCalls(d, m, v, n)|);
    assert ActivateCalls(d, m, v, n)[..|ActivateCalls(d, m, v, n)|] == ActivateCalls(d, m, v, n);
    StoppedAfterRemoval(hash, ok, Activated(d, m, v, n), m);
  }

  lemma StoppedAfterRemoval(hash: Hash, ok: Verified, a: ModelDir, m: string)
    requires DirOk(hash, ok, a) && Readable(a) && a.rollback.value.record.model == m
    requires RollbackTarget(a) == None && a.current.Some?
    ensures RolledBack(a, m).Some?
    ensures var e := Execute(a, RollbackCalls(a)[..1]);
            e.Some? && DirOk(hash, ok, e.value) && Readable(e.value) && RolledBack(e.value, m) == None
  {
    RollbackRuns(hash, ok, a);
    RollbackCrashSafe(hash, ok, a, 1);
    assert RollbackCalls(a)[..1] == [RemoveCurrent] && [RemoveCurrent][1..] == [];
    assert Execute(a, [RemoveCurrent]) == Execute(a.(current := None), []);
    RollbackRetryIff(hash, ok, a.(current := None), m);
  }
}
