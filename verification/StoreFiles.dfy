/**
 The directory of one model in the versioned store, the file-system calls the store makes on it,
 and what holds of it after every single call, so that a crash may come between any two.
 Names are ordinary single path components. A symbolic link `versions/<id>` is kept as its id.
 SHA-256 is any function from bytes to text.
 */
module StoreFiles {
  import opened Common
  import opened Bytes

  const MODEL := "model.gguf"
  const MANIFEST := "manifest.json"
  const CHECKSUM := "checksum.sha256"
  const NEXT := "current.next"
  const BACK := "current.rollback"

  datatype Record =
    | Manifest(model: string, version: string, catalogId: string, sha256: string)
    | Activation(model: string, version: string, previous: Option<string>)

  /** A regular file. Torn is one whose writing was cut short: it does not parse. */
  datatype File =
    | Blob(bytes: Bytes)
    | Json(record: Record, size: nat)
    | Checksum(sha256: string, size: nat)
    | Torn(size: nat)

  function FileSize(f: File): nat { if f.Blob? then |f.bytes| else f.size }

  type Dir = map<string, File>

  datatype ModelDir = ModelDir(
    versions: map<string, Dir>, temps: map<string, Dir>,
    current: Option<string>, links: map<string, string>, rollback: Option<File>)

  const EMPTY := ModelDir(map[], map[], None, map[], None)

  /* ---------- file-system calls ---------- */

  datatype Call =
    | MakeTemp(temp: string)
    | WriteTemp(temp: string, name: string, file: File)
    | Publish(temp: string, version: string)           // rename of a temporary directory to a version
    | RemoveTempFile(temp: string, name: string)
    | RemoveTemp(temp: string)
    | RemoveVersionFile(version: string, name: string)
    | RemoveVersion(version: string)
    | Link(name: string, target: string)
    | Unlink(name: string)
    | Switch(name: string)                             // rename of a link to `current`
    | RemoveCurrent
    | WriteRollback(file: File)
    | RemoveRollback

  /** The directory after a call, or None where the operating system refuses it. */
  function Do(d: ModelDir, c: Call): Option<ModelDir> {
    match c
    case MakeTemp(t) => if t in d.temps then None else Some(d.(temps := d.temps[t := map[]]))
    case WriteTemp(t, name, file) =>
      if t !in d.temps then None else Some(d.(temps := d.temps[t := d.temps[t][name := file]]))
    case Publish(t, v) =>
      if t !in d.temps || v in d.versions then None
      else Some(d.(versions := d.versions[v := d.temps[t]], temps := d.temps - {t}))
    case RemoveTempFile(t, name) =>
      if t !in d.temps || name !in d.temps[t] then None else Some(d.(temps := d.temps[t := d.temps[t] - {name}]))
    case RemoveTemp(t) =>
      if t !in d.temps || d.temps[t] != map[] then None else Some(d.(temps := d.temps - {t}))
    case RemoveVersionFile(v, name) =>
      if v !in d.versions || name !in d.versions[v] then None
      else Some(d.(versions := d.versions[v := d.versions[v] - {name}]))
    case RemoveVersion(v) =>
      if v !in d.versions || d.versions[v] != map[] then None else Some(d.(versions := d.versions - {v}))
    case Link(name, target) => if name in d.links then None else Some(d.(links := d.links[name := target]))
    case Unlink(name) => if name !in d.links then None else Some(d.(links := d.links - {name}))
    case Switch(name) =>
      if name !in d.links then None else Some(d.(current := Some(d.links[name]), links := d.links - {name}))
    case RemoveCurrent => if d.current == None then None else Some(d.(current := None))
    case WriteRollback(file) => Some(d.(rollback := Some(file)))
    case RemoveRollback => if d.rollback == None then None else Some(d.(rollback := None))
  }

  function Execute(d: ModelDir, calls: seq<Call>): Option<ModelDir>
    decreases |calls|
  {
    if calls == [] then Some(d)
    else match Do(d, calls[0])
         case None => None
         case Some(e) => Execute(e, calls[1..])
  }

  /* ---------- the invariant ---------- */

  /** (version, bytes, checksum) for every file VerifySHA256 has accepted. */
  type Verified = set<(string, Bytes, string)>

  predicate HasModel(d: ModelDir, v: string) { v in d.versions && MODEL in d.versions[v] }

  /** The version a readable rollback record names. */
  function RollbackTarget(d: ModelDir): Option<string> {
    if d.rollback.Some? && d.rollback.value.Json? && d.rollback.value.record.Activation?
    then d.rollback.value.record.previous else None
  }

  /** The model file of version v is whole and passed its checksum, and what is recorded beside it agrees. */
  ghost predicate Intact(hash: Bytes -> string, ok: Verified, v: string, dir: Dir) {
    && (forall name :: name in dir ==> !dir[name].Torn?)
    && (MODEL in dir ==>
          && dir[MODEL].Blob?
          && (exists sha :: (v, dir[MODEL].bytes, sha) in ok)
          && (MANIFEST in dir ==> ManifestFor(dir[MANIFEST], v, hash(dir[MODEL].bytes)))
          && (CHECKSUM in dir ==> dir[CHECKSUM].Checksum? && dir[CHECKSUM].sha256 == hash(dir[MODEL].bytes)))
  }

  predicate ManifestFor(f: File, v: string, sha256: string) {
    f.Json? && f.record.Manifest? && f.record.version == v && f.record.sha256 == sha256
  }

  ghost predicate DirOk(hash: Bytes -> string, ok: Verified, d: ModelDir) {
    && (forall v :: v in d.versions ==> Intact(hash, ok, v, d.versions[v]))
    && (d.current.Some? ==> HasModel(d, d.current.value))
    && (RollbackTarget(d).Some? ==> HasModel(d, RollbackTarget(d).value) && d.current.Some?)
    && (d.rollback.Some? && d.rollback.value.Json? ==> d.rollback.value.record.Activation?)
  }

  /** Versions that must keep their files. */
  predicate Protected(d: ModelDir, v: string) { d.current == Some(v) || RollbackTarget(d) == Some(v) }

  /** What the store has made sure of before it makes a call. */
  ghost predicate Safe(hash: Bytes -> string, ok: Verified, d: ModelDir, c: Call) {
    match c
    case Publish(t, v) => t in d.temps ==> Intact(hash, ok, v, d.temps[t])
    case RemoveVersionFile(v, _) => !Protected(d, v)
    case Switch(name) => name in d.links ==> HasModel(d, d.links[name])
    case RemoveCurrent => RollbackTarget(d) == None
    case WriteRollback(file) =>
      || file.Torn?
      || (file.Json? && file.record.Activation?
          && (file.record.previous.Some? ==> HasModel(d, file.record.previous.value) && d.current.Some?))
    case _ => true
  }

  lemma SafeCallKeepsVersions(hash: Bytes -> string, ok: Verified, d: ModelDir, c: Call, v: string)
    requires DirOk(hash, ok, d) && Safe(hash, ok, d, c) && Do(d, c).Some? && v in Do(d, c).value.versions
    ensures Intact(hash, ok, v, Do(d, c).value.versions[v])
  {
    assert v in d.versions ==> Intact(hash, ok, v, d.versions[v]);
  }

  lemma SafeCallKeepsPointers(hash: Bytes -> string, ok: Verified, d: ModelDir, c: Call)
    requires DirOk(hash, ok, d) && Safe(hash, ok, d, c) && Do(d, c).Some?
    ensures var e := Do(d, c).value;
            && (e.current.Some? ==> HasModel(e, e.current.value))
            && (RollbackTarget(e).Some? ==> HasModel(e, RollbackTarget(e).value) && e.current.Some?)
            && (e.rollback.Some? && e.rollback.value.Json? ==> e.rollback.value.record.Activation?)
  {
  }

  /** Every call the store makes keeps its promises, whatever the call before or after it does. */
  lemma SafeCallKeepsDir(hash: Bytes -> string, ok: Verified, d: ModelDir, c: Call)
    requires DirOk(hash, ok, d) && Safe(hash, ok, d, c) && Do(d, c).Some?
    ensures DirOk(hash, ok, Do(d, c).value)
  {
    SafeCallKeepsPointers(hash, ok, d, c);
    forall v | v in Do(d, c).value.versions
      ensures Intact(hash, ok, v, Do(d, c).value.versions[v])
    {
      SafeCallKeepsVersions(hash, ok, d, c, v);
    }
  }

  lemma MoreVerified(hash: Bytes -> string, ok: Verified, more: Verified, d: ModelDir)
    requires DirOk(hash, ok, d) && ok <= more
    ensures DirOk(hash, more, d)
  {
    forall v | v in d.versions
      ensures Intact(hash, more, v, d.versions[v])
    {
      assert Intact(hash, ok, v, d.versions[v]);
    }
  }
}
