/**
 Installing and deleting versions, call by call, and what deletion gives back. RemoveAll takes the
 files of a directory in any order.
 */
module StoreContents {
  import opened Common
  import opened Bytes
  import opened StoreFiles
  import opened StoreTheorems

  /* ---------- installing ---------- */

  /** What InstallLocalFile is asked to put in place, once the checksum has been verified. */
  datatype Package = Package(
    model: string, version: string, catalogId: string, bytes: Bytes, sha256: string,
    partial: nat /* size of a half-copied model file */, manifestSize: nat, checksumSize: nat)

  function Contents(p: Package): Dir {
    map[MODEL := Blob(p.bytes),
        MANIFEST := Json(Manifest(p.model, p.version, p.catalogId, p.sha256), p.manifestSize),
        CHECKSUM := Checksum(p.sha256, p.checksumSize)]
  }

  /** The calls of InstallLocalFile into the temporary directory t; each file is torn at first. */
  function InstallCalls(t: string, p: Package): seq<Call> {
    [MakeTemp(t),
     WriteTemp(t, MODEL, Torn(p.partial)), WriteTemp(t, MODEL, Blob(p.bytes)),
     WriteTemp(t, MANIFEST, Torn(0)), WriteTemp(t, MANIFEST, Contents(p)[MANIFEST]),
     WriteTemp(t, CHECKSUM, Torn(0)), WriteTemp(t, CHECKSUM, Contents(p)[CHECKSUM]),
     Publish(t, p.version)]
  }

  function InTemp(d: ModelDir, t: string, dir: Dir): ModelDir { d.(temps := d.temps[t := dir]) }

  lemma WriteStep(hash: Hash, ok: Verified, d: ModelDir, t: string, dir: Dir, name: string, file: File,
      calls: seq<Call>)
    requires calls != [] && calls[0] == WriteTemp(t, name, file)
    requires SafeRun(hash, ok, InTemp(d, t, dir[name := file]), calls[1..])
    ensures SafeRun(hash, ok, InTemp(d, t, dir), calls)
    ensures Execute(InTemp(d, t, dir), calls) == Execute(InTemp(d, t, dir[name := file]), calls[1..])
  {
    var e := InTemp(d, t, dir[name := file]);
    assert InTemp(d, t, dir).temps[t := dir[name := file]] == e.temps;
    Step(hash, ok, InTemp(d, t, dir), calls, e);
  }

  lemma PublishStep(hash: Hash, ok: Verified, d: ModelDir, t: string, p: Package)
    requires t !in d.temps && p.version !in d.versions
    requires p.sha256 == hash(p.bytes) && (p.version, p.bytes, p.sha256) in ok
    ensures var e := InTemp(d, t, Contents(p));
            && SafeRun(hash, ok, e, [Publish(t, p.version)])
            && Execute(e, [Publish(t, p.version)]) == Some(d.(versions := d.versions[p.version := Contents(p)]))
  {
    var e := InTemp(d, t, Contents(p));
    assert Intact(hash, ok, p.version, Contents(p));
    assert e.temps - {t} == d.temps;
    assert [Publish(t, p.version)][1..] == [];
    Step(hash, ok, e, [Publish(t, p.version)], d.(versions := d.versions[p.version := Contents(p)]));
  }

  /** The contents of the temporary directory when the first i calls have been made, 1 <= i <= 7. */
  function Stage(p: Package, i: nat): Dir
    requires 1 <= i <= 7
  {
    var model: Dir := map[MODEL := Blob(p.bytes)];
    if i == 1 then map[]
    else if i == 2 then map[MODEL := Torn(p.partial)]
    else if i == 3 then model
    else if i == 4 then model[MANIFEST := Torn(0)]
    else if i == 5 then model[MANIFEST := Contents(p)[MANIFEST]]
    else if i == 6 then model[MANIFEST := Contents(p)[MANIFEST]][CHECKSUM := Torn(0)]
    else Contents(p)
  }

  lemma StageStep(t: string, p: Package, i: nat)
    requires 1 <= i <= 6
    ensures var c := InstallCalls(t, p)[i];
            c.WriteTemp? && c.temp == t && Stage(p, i)[c.name := c.file] == Stage(p, i + 1)
  {
  }

  lemma {:induction false} InstallRunsFrom(hash: Hash, ok: Verified, d: ModelDir, t: string, p: Package, i: nat)
    requires t !in d.temps && p.version !in d.versions && 1 <= i <= 7
    requires p.sha256 == hash(p.bytes) && (p.version, p.bytes, p.sha256) in ok
    ensures SafeRun(hash, ok, InTemp(d, t, Stage(p, i)), InstallCalls(t, p)[i..])
    ensures Execute(InTemp(d, t, Stage(p, i)), InstallCalls(t, p)[i..])
         == Some(d.(versions := d.versions[p.version := Contents(p)]))
    decreases 7 - i
  {
    if i == 7 {
      assert InstallCalls(t, p)[7..] == [Publish(t, p.version)];
      PublishStep(hash, ok, d, t, p);
    } else {
      InstallRunsFrom(hash, ok, d, t, p, i + 1);
      StageStep(t, p, i);
      TailStep(hash, ok, d, t, Stage(p, i), InstallCalls(t, p), i);
    }
  }

  lemma InstallRuns(hash: Hash, ok: Verified, d: ModelDir, t: string, p: Package)
    requires t !in d.temps && p.version !in d.versions
    requires p.sha256 == hash(p.bytes) && (p.version, p.bytes, p.sha256) in ok
    ensures SafeRun(hash, ok, d, InstallCalls(t, p))
    ensures Execute(d, InstallCalls(t, p)) == Some(d.(versions := d.versions[p.version := Contents(p)]))
  {
    InstallRunsFrom(hash, ok, d, t, p, 1);
    Step(hash, ok, d, InstallCalls(t, p), InTemp(d, t, map[]));
  }

  lemma TailStep(hash: Hash, ok: Verified, d: ModelDir, t: string, dir: Dir, calls: seq<Call>, i: nat)
    requires i < |calls| && calls[i].WriteTemp? && calls[i].temp == t
    requires SafeRun(hash, ok, InTemp(d, t, dir[calls[i].name := calls[i].file]), calls[i + 1..])
    ensures SafeRun(hash, ok, InTemp(d, t, dir), calls[i..])
    ensures Execute(InTemp(d, t, dir), calls[i..])
            == Execute(InTemp(d, t, dir[calls[i].name := calls[i].file]), calls[i + 1..])
  {
    assert calls[i..][1..] == calls[i + 1..];
    WriteStep(hash, ok, d, t, dir, calls[i].name, calls[i].file, calls[i..]);
  }

  /** Installation may be stopped after any call; the version is there only as a whole. */
  lemma InstallCrashSafe(hash: Hash, ok: Verified, d: ModelDir, t: string, p: Package, k: nat)
    requires DirOk(hash, ok, d) && t !in d.temps && p.version !in d.versions
    requires p.sha256 == hash(p.bytes) && (p.version, p.bytes, p.sha256) in ok && k <= 8
    ensures var e := Execute(d, InstallCalls(t, p)[..k]);
            && e.Some? && DirOk(hash, ok, e.value)
            && e.value.current == d.current && e.value.rollback == d.rollback
            && e.value.versions == (if k < 8 then d.versions else d.versions[p.version := Contents(p)])
  {
    InstallRuns(hash, ok, d, t, p);
    CrashAnywhere(hash, ok, d, InstallCalls(t, p), k);
    if k == 8 {
      assert InstallCalls(t, p)[..k] == InstallCalls(t, p);
    } else {
      forall i | 0 <= i < k
        ensures OnlyTemps(InstallCalls(t, p)[..k][i])
      {
      }
      TempsOnly(d, InstallCalls(t, p)[..k]);
    }
  }

  predicate OnlyTemps(c: Call) { c.MakeTemp? || c.WriteTemp? }

  lemma {:induction false} TempsOnly(d: ModelDir, calls: seq<Call>)
    requires Execute(d, calls).Some? && forall i :: 0 <= i < |calls| ==> OnlyTemps(calls[i])
    ensures Execute(d, calls).value == d.(temps := Execute(d, calls).value.temps)
    decreases |calls|
  {
    if calls != [] {
      assert OnlyTemps(calls[0]);
      assert forall i :: 0 <= i < |calls[1..]| ==> calls[1..][i] == calls[i + 1];
      TempsOnly(Do(d, calls[0]).value, calls[1..]);
    }
  }

  /* ---------- deleting ---------- */

  /** `order` lists the files of dir, each once. */
  predicate Lists(order: seq<string>, dir: Dir) {
    && (forall i, j :: 0 <= i < j < |order| ==> order[i] != order[j])
    && (forall i :: 0 <= i < |order| ==> order[i] in dir)
    && (forall name :: name in dir ==> name in order)
  }

  /** os.RemoveAll of a version directory. */
  function DeleteCalls(v: string, order: seq<string>): (calls: seq<Call>)
    ensures |calls| == |order| + 1
  {
    if order == [] then [RemoveVersion(v)] else [RemoveVersionFile(v, order[0])] + DeleteCalls(v, order[1..])
  }

  lemma {:induction false} DeleteRuns(hash: Hash, ok: Verified, d: ModelDir, v: string, order: seq<string>)
    requires v in d.versions && !Protected(d, v) && Lists(order, d.versions[v])
    ensures SafeRun(hash, ok, d, DeleteCalls(v, order))
    ensures Execute(d, DeleteCalls(v, order)) == Some(d.(versions := d.versions - {v}))
    decreases |order|
  {
    var calls := DeleteCalls(v, order);
    if order == [] {
      assert d.versions[v] == map[];
      assert calls[1..] == [];
      Step(hash, ok, d, calls, d.(versions := d.versions - {v}));
    } else {
      var e := d.(versions := d.versions[v := d.versions[v] - {order[0]}]);
      assert e.versions - {v} == d.versions - {v};
      forall name | name in e.versions[v]
        ensures name in order[1..]
      {
        var i :| 0 <= i < |order| && order[i] == name;
        assert order[1..][i - 1] == name;
      }
      DeleteRuns(hash, ok, e, v, order[1..]);
      assert calls[1..] == DeleteCalls(v, order[1..]);
      Step(hash, ok, d, calls, e);
    }
  }

  /** Deletion may be stopped after any call, whatever order the files go in. */
  lemma DeleteCrashSafe(hash: Hash, ok: Verified, d: ModelDir, v: string, order: seq<string>, k: nat)
    requires DirOk(hash, ok, d) && v in d.versions && !Protected(d, v) && Lists(order, d.versions[v])
    requires k <= |DeleteCalls(v, order)|
    ensures var e := Execute(d, DeleteCalls(v, order)[..k]); e.Some? && DirOk(hash, ok, e.value)
  {
    DeleteRuns(hash, ok, d, v, order);
    CrashAnywhere(hash, ok, d, DeleteCalls(v, order), k);
  }

  /** Pieces of os.RemoveAll of the model's own directory. */
  predicate Removal(c: Call) {
    || c.RemoveTempFile? || c.RemoveTemp? || c.RemoveVersionFile? || c.RemoveVersion? || c.Unlink? || c.RemoveRollback?
  }

  /** With no active version everything may be removed, in any order and stopped anywhere: the
      rollback record then protects nothing, which is why DeleteModel need not look at it. */
  lemma {:induction false} DeleteModelCrashSafe(hash: Hash, ok: Verified, d: ModelDir, calls: seq<Call>)
    requires DirOk(hash, ok, d) && d.current == None
    requires (forall i :: 0 <= i < |calls| ==> Removal(calls[i])) && Execute(d, calls).Some?
    ensures DirOk(hash, ok, Execute(d, calls).value) && Execute(d, calls).value.current == None
    decreases |calls|
  {
    if calls != [] {
      assert Removal(calls[0]);
      SafeCallKeepsDir(hash, ok, d, calls[0]);
      assert forall i :: 0 <= i < |calls[1..]| ==> calls[1..][i] == calls[i + 1];
      DeleteModelCrashSafe(hash, ok, Do(d, calls[0]).value, calls[1..]);
    }
  }

  /** Whether the store can still do something with version v: InstallLocalFile refuses a version whose
      directory is there, ActivateVersion one without a model file. */
  predicate Usable(d: ModelDir, v: string) { v !in d.versions || HasModel(d, v) }

  /** A directory without the given files. */
  function Without(dir: Dir, names: seq<string>): Dir { dir - set name | name in names }

  lemma WithoutStep(dir: Dir, order: seq<string>, k: nat)
    requires 0 < k <= |order|
    ensures Without(dir - {order[0]}, order[1..][..k - 1]) == Without(dir, order[..k])
  {
    assert order[..k] == [order[0]] + order[1..][..k - 1];
  }

  function AfterFirst(d: ModelDir, v: string, name: string): ModelDir
    requires v in d.versions
  {
    d.(versions := d.versions[v := d.versions[v] - {name}])
  }

  lemma DeleteStep(d: ModelDir, v: string, order: seq<string>, k: nat)
    requires v in d.versions && 0 < k <= |order| && order[0] in d.versions[v]
    ensures Execute(d, DeleteCalls(v, order)[..k])
         == Execute(AfterFirst(d, v, order[0]), DeleteCalls(v, order[1..])[..k - 1])
  {
    var calls := DeleteCalls(v, order)[..k];
    assert calls[0] == RemoveVersionFile(v, order[0]) && calls[1..] == DeleteCalls(v, order[1..])[..k - 1];
  }

  /** A deletion that was stopped after k calls has removed the first k files. */
  lemma {:induction false} PartialDelete(d: ModelDir, v: string, order: seq<string>, k: nat)
    requires v in d.versions && Lists(order, d.versions[v]) && k <= |order|
    ensures Execute(d, DeleteCalls(v, order)[..k])
         == Some(d.(versions := d.versions[v := Without(d.versions[v], order[..k])]))
    decreases k
  {
    var dir := Without(d.versions[v], order[..k]);
    if k == 0 {
      assert dir == d.versions[v] && d.versions[v := dir] == d.versions;
    } else {
      DeleteStep(d, v, order, k);
      RestIsListed(order, d.versions[v]);
      PartialDelete(AfterFirst(d, v, order[0]), v, order[1..], k - 1);
      WithoutStep(d.versions[v], order, k);
      assert AfterFirst(d, v, order[0]).versions[v := dir] == d.versions[v := dir];
    }
  }

  lemma RestIsListed(order: seq<string>, dir: Dir)
    requires order != [] && Lists(order, dir)
    ensures Lists(order[1..], dir - {order[0]})
  {
    forall name | name in dir - {order[0]}
      ensures name in order[1..]
    {
      var i :| 0 <= i < |order| && order[i] == name;
      assert order[1..][i - 1] == name;
    }
  }

  /** A deletion that is stopped anywhere, in any order of the files, leaves a version that can neither
      be activated nor installed again if and only if the model file was among the files removed and the
      directory itself was not. */
  lemma HalfDeletedIff(hash: Hash, ok: Verified, d: ModelDir, v: string, order: seq<string>, k: nat)
    requires HasModel(d, v) && !Protected(d, v) && Lists(order, d.versions[v]) && k <= |DeleteCalls(v, order)|
    ensures var e := Execute(d, DeleteCalls(v, order)[..k]);
            e.Some? && (Usable(e.value, v) <==> k == |order| + 1 || MODEL !in order[..k])
  {
    if k <= |order| {
      PartialDelete(d, v, order, k);
    } else {
      DeleteRuns(hash, ok, d, v, order);
      assert DeleteCalls(v, order)[..k] == DeleteCalls(v, order);
    }
  }

  /** The way out: deleting what is left, in any order, ends where the uninterrupted deletion does. */
  lemma DeleteRetry(hash: Hash, ok: Verified, d: ModelDir, v: string, order: seq<string>, k: nat, again: seq<string>)
    requires v in d.versions && !Protected(d, v) && Lists(order, d.versions[v]) && k <= |order|
    requires var e := Execute(d, DeleteCalls(v, order)[..k]);
             e.Some? && v in e.value.versions && Lists(again, e.value.versions[v])
    ensures var e := Execute(d, DeleteCalls(v, order)[..k]).value;
            Execute(e, DeleteCalls(v, again)) == Execute(d, DeleteCalls(v, order))
  {
    PartialDelete(d, v, order, k);
    var e := Execute(d, DeleteCalls(v, order)[..k]).value;
    DeleteRuns(hash, ok, d, v, order);
    DeleteRuns(hash, ok, e, v, again);
    assert e.versions - {v} == d.versions - {v};
  }

  /* ---------- sizes ---------- */

  /** The sum of f over the values of m. */
  ghost function Sum<V(!new)>(m: map<string, V>, f: V -> nat): nat {
    if m == map[] then 0 else
    var k :| k in m;
    f(m[k]) + Sum(m - {k}, f)
  }

  lemma {:induction false} SumWithout<V(!new)>(m: map<string, V>, f: V -> nat, k: string)
    requires k in m
    ensures Sum(m, f) == f(m[k]) + Sum(m - {k}, f)
    decreases |m|
  {
    var first :| first in m && Sum(m, f) == f(m[first]) + Sum(m - {first}, f);
    if first != k {
      SumWithout(m - {first}, f, k);
      SumWithout(m - {k}, f, first);
      assert m - {first} - {k} == m - {k} - {first};
    }
  }

  ghost function DirSize(dir: Dir): nat { Sum(dir, FileSize) }

  /** directorySize of the model's directory: regular files only, links neither counted nor followed. */
  ghost function ModelSize(d: ModelDir): nat {
    Sum(d.versions, DirSize) + Sum(d.temps, DirSize) + (if d.rollback.Some? then FileSize(d.rollback.value) else 0)
  }

  lemma {:induction false} SumOfThree<V(!new)>(m: map<string, V>, f: V -> nat, a: string, b: string, c: string)
    requires m.Keys == {a, b, c} && a != b && b != c && a != c
    ensures Sum(m, f) == f(m[a]) + f(m[b]) + f(m[c])
  {
    SumWithout(m, f, a);
    SumWithout(m - {a}, f, b);
    SumWithout(m - {a} - {b}, f, c);
    assert (m - {a} - {b} - {c}).Keys == {};
  }

  /** An installed version is the model file, its manifest and its checksum, and nothing else; the size of
      the model grows by theirs. */
  lemma InstallAddsBytes(d: ModelDir, p: Package)
    requires p.version !in d.versions
    ensures var dir := Contents(p);
            && dir.Keys == {"model.gguf", "manifest.json", "checksum.sha256"}
            && dir["model.gguf"] == Blob(p.bytes)
            && dir["manifest.json"].Json?
            && dir["manifest.json"].record == Manifest(p.model, p.version, p.catalogId, p.sha256)
            && dir["checksum.sha256"].Checksum? && dir["checksum.sha256"].sha256 == p.sha256
    ensures ModelSize(d.(versions := d.versions[p.version := Contents(p)]))
         == ModelSize(d) + |p.bytes| + p.manifestSize + p.checksumSize
  {
    var e := d.versions[p.version := Contents(p)];
    SumWithout(e, DirSize, p.version);
    assert e - {p.version} == d.versions;
    assert MODEL != MANIFEST && MANIFEST != CHECKSUM && MODEL != CHECKSUM by {
      assert |MODEL| == 10 && |MANIFEST| == 13 && |CHECKSUM| == 15;
    }
    SumOfThree(Contents(p), FileSize, MODEL, MANIFEST, CHECKSUM);
  }

  /** A completed deletion lowers the size of the model by exactly what is reported as reclaimed. */
  lemma DeletionReclaims(hash: Hash, ok: Verified, d: ModelDir, v: string, order: seq<string>)
    requires v in d.versions && !Protected(d, v) && Lists(order, d.versions[v])
    ensures var e := Execute(d, DeleteCalls(v, order));
            e.Some? && ModelSize(e.value) + DirSize(d.versions[v]) == ModelSize(d)
  {
    DeleteRuns(hash, ok, d, v, order);
    SumWithout(d.versions, DirSize, v);
  }
}
