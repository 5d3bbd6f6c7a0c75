/**
 The model store as the program writes it: each file-system call may fail, and the machine may
 crash before or after any of them. After a crash no call has any further effect, so what a method
 promises at its end is what is found on disk after a crash anywhere inside it.
 */
module ModelStore {
  import opened Common
  import opened Bytes
  import opened StoreFiles
  import opened StoreTheorems
  import opened StoreContents

  datatype StoreError =
    | NameRequired | ChecksumRequired | VersionExists | ChecksumMismatch
    | NotFound | MissingModel | WrongModel | BadRecord | ActiveVersion | RollbackVersion | Io

  /* ---------- taking a directory apart ---------- */

  ghost function Weight(dir: Dir): nat { 1 + |dir| }

  /** Files, directories and links of a model's directory without `current`. */
  ghost function Pieces(d: ModelDir): nat {
    Sum(d.versions, Weight) + Sum(d.temps, Weight) + |d.links.Keys| + if d.rollback.Some? then 1 else 0
  }

  lemma LessWeight(m: map<string, Dir>, k: string, name: string)
    requires k in m && name in m[k]
    ensures Sum(m[k := m[k] - {name}], Weight) < Sum(m, Weight)
  {
    var less := m[k := m[k] - {name}];
    SumWithout(m, Weight, k);
    SumWithout(less, Weight, k);
    assert less - {k} == m - {k};
  }

  lemma LessEntry(m: map<string, Dir>, k: string)
    requires k in m
    ensures Sum(m - {k}, Weight) < Sum(m, Weight)
  {
    SumWithout(m, Weight, k);
  }

  lemma TempRemovalShrinks(d: ModelDir, c: Call)
    requires (c.RemoveTempFile? || c.RemoveTemp?) && Do(d, c).Some?
    ensures Sum(Do(d, c).value.temps, Weight) < Sum(d.temps, Weight)
    ensures Do(d, c).value == d.(temps := Do(d, c).value.temps)
  {
    if c.RemoveTemp? {
      LessEntry(d.temps, c.temp);
    } else {
      LessWeight(d.temps, c.temp, c.name);
    }
  }

  lemma VersionRemovalShrinks(d: ModelDir, c: Call)
    requires (c.RemoveVersionFile? || c.RemoveVersion?) && Do(d, c).Some?
    ensures Sum(Do(d, c).value.versions, Weight) < Sum(d.versions, Weight)
    ensures Do(d, c).value == d.(versions := Do(d, c).value.versions)
  {
    if c.RemoveVersion? {
      LessEntry(d.versions, c.version);
    } else {
      LessWeight(d.versions, c.version, c.name);
    }
  }

  lemma LinkRemovalShrinks(d: ModelDir, name: string)
    requires name in d.links
    ensures |(d.links - {name}).Keys| < |d.links.Keys|
  {
    assert (d.links - {name}).Keys == d.links.Keys - {name};
  }

  lemma RemovalShrinks(d: ModelDir, c: Call)
    requires Removal(c) && Do(d, c).Some?
    ensures Pieces(Do(d, c).value) < Pieces(d) && Do(d, c).value.current == d.current
  {
    if c.RemoveTempFile? || c.RemoveTemp? {
      TempRemovalShrinks(d, c);
    } else if c.RemoveVersionFile? || c.RemoveVersion? {
      VersionRemovalShrinks(d, c);
    } else if c.Unlink? {
      LinkRemovalShrinks(d, c.name);
    }
  }

  /** As long as anything is left there is a piece that can be removed. */
  method SomePiece(d: ModelDir) returns (c: Call)
    requires d.current == None && d != EMPTY
    ensures Removal(c) && Do(d, c).Some?
  {
    if d.versions != map[] {
      var v :| v in d.versions;
      c := SomeOf(d.versions[v], RemoveVersion(v), (name: string) => RemoveVersionFile(v, name));
    } else if d.temps != map[] {
      var t :| t in d.temps;
      c := SomeOf(d.temps[t], RemoveTemp(t), (name: string) => RemoveTempFile(t, name));
    } else if d.links != map[] {
      var name :| name in d.links;
      c := Unlink(name);
    } else {
      c := RemoveRollback;
    }
  }

  /** A file of the directory, or the directory if it is empty. */
  method SomeOf(dir: Dir, whole: Call, file: string -> Call) returns (c: Call)
    ensures if dir == map[] then c == whole else exists name :: name in dir && c == file(name)
  {
    if dir == map[] {
      c := whole;
    } else {
      var name :| name in dir;
      c := file(name);
    }
  }

  function AtLeast(names: set<string>, n: nat): set<string> { set x | x in names && |x| >= n }

  lemma FewerNames(names: set<string>, t: string)
    requires t in names
    ensures |AtLeast(names, |t| + 1)| < |AtLeast(names, |t|)|
  {
    assert AtLeast(names, |t| + 1) <= AtLeast(names, |t|) - {t} && t in AtLeast(names, |t|);
    SubsetSize(AtLeast(names, |t| + 1), AtLeast(names, |t|) - {t});
  }

  lemma {:induction false} SubsetSize(a: set<string>, b: set<string>)
    requires a <= b
    ensures |a| <= |b|
    decreases a
  {
    if a != {} {
      var x :| x in a;
      SubsetSize(a - {x}, b - {x});
    }
  }

  class Store {
    const hash: Bytes -> string
    const steady: bool   // no call fails and the machine does not crash
    var root: map<string, ModelDir>
    var crashed: bool
    ghost var verified: map<string, Verified>

    ghost function Accepted(m: string): Verified reads this { if m in verified then verified[m] else {} }

    ghost predicate Valid() reads this {
      && (forall m :: m in root ==> DirOk(hash, Accepted(m), root[m]))
      && (forall m, x :: m in verified && x in verified[m] ==> x.2 == hash(x.1))
    }

    constructor (hash: Bytes -> string, steady: bool)
      ensures Valid() && root == map[] && !crashed && this.hash == hash && this.steady == steady
    {
      this.hash, this.steady := hash, steady;
      root, crashed, verified := map[], false, map[];
    }

    /** After a crash the daemon is started again on what is on disk. */
    method Restart()
      requires Valid()
      modifies this`crashed
      ensures Valid() && !crashed
    {
      crashed := false;
    }

    /** Nothing goes wrong: then an operation fails only where it has a reason to. */
    predicate Calm() reads `crashed { steady && !crashed }

    /** Nothing but the directory of model m has changed. */
    twostate predicate OnlyModel(m: string) reads this { root - {m} == old(root) - {m} }

    /* ---------- single calls ---------- */

    method Perform(m: string, c: Call) returns (ok: bool)
      requires Valid() && (m in root ==> Safe(hash, Accepted(m), root[m], c))
      modifies `root, `crashed
      ensures Valid() && OnlyModel(m) && (old(crashed) ==> crashed)
      ensures m in root <==> m in old(root)
      ensures m in root ==> root[m] == old(root)[m] || Do(old(root)[m], c) == Some(root[m])
      ensures ok ==> m in root && Do(old(root)[m], c) == Some(root[m])
      ensures old(Calm()) ==> Calm() && (ok <==> m in root && Do(old(root)[m], c).Some?)
    {
      var fails: bool, dies: bool := *, *;
      if steady {
        fails, dies := false, false;
      }
      if crashed || m !in root || fails {
        crashed := crashed || dies;
        return false;
      }
      match Do(root[m], c)
      case None => return false;
      case Some(d) =>
        SafeCallKeepsDir(hash, Accepted(m), root[m], c);
        root := root[m := d];
        crashed := dies;
        return !dies;
    }

    /** Reading can fail too. */
    method Reads() returns (ok: bool)
      modifies `crashed
      ensures crashed == old(crashed) && (Calm() ==> ok)
    {
      ok := *;
      ok := (ok || steady) && !crashed;
    }

    method EnsureLayout(m: string) returns (ok: bool)
      requires Valid()
      modifies `root, `crashed
      ensures Valid()
      ensures root == old(root) || (m !in old(root) && root == old(root)[m := EMPTY])
      ensures ok ==> m in root
      ensures old(Calm()) ==> ok && Calm()
    {
      ok := Reads();
      if ok && m !in root {
        root := root[m := EMPTY];
      }
    }

    /* ---------- removing directories ---------- */

    method RemoveTempAll(m: string, t: string)
      requires Valid()
      modifies `root, `crashed
      ensures Valid() && OnlyModel(m)
      ensures m in root <==> m in old(root)
      ensures m in root ==> root[m] == old(root)[m].(temps := root[m].temps)
      ensures old(Calm()) ==> Calm()
    {
      var ok := true;
      while ok && m in root && t in root[m].temps && root[m].temps[t] != map[]
        invariant Valid() && OnlyModel(m) && (old(Calm()) ==> Calm())
        invariant m in root <==> m in old(root)
        invariant m in root ==> root[m] == old(root)[m].(temps := root[m].temps)
        decreases ok, if m in root && t in root[m].temps then |root[m].temps[t]| else 0
      {
        var name :| name in root[m].temps[t];
        ok := Perform(m, RemoveTempFile(t, name));
      }
      if ok {
        var gone := Perform(m, RemoveTemp(t));
      }
    }

    /** os.RemoveAll of a version that nothing protects. */
    method RemoveVersionAll(m: string, v: string) returns (ok: bool)
      requires Valid() && m in root && v in root[m].versions && !Protected(root[m], v)
      modifies `root, `crashed
      ensures Valid() && m in root && OnlyModel(m) && SameBut(old(root)[m], root[m], v)
      ensures ok ==> v !in root[m].versions
      ensures old(Calm()) ==> ok && Calm()
    {
      ok := true;
      while ok && root[m].versions[v] != map[]
        invariant old(Calm()) ==> ok && Calm()
        invariant Valid() && m in root && OnlyModel(m) && SameBut(old(root)[m], root[m], v)
        invariant v in root[m].versions
        decreases ok, |root[m].versions[v]|
      {
        var name :| name in root[m].versions[v];
        ok := RemoveOne(m, v, name);
      }
      if ok {
        ok := RemoveEmpty(m, v);
      }
    }

    method RemoveEmpty(m: string, v: string) returns (ok: bool)
      requires Valid() && m in root
      modifies `root, `crashed
      ensures Valid() && m in root && OnlyModel(m) && SameBut(old(root)[m], root[m], v)
      ensures ok ==> v !in root[m].versions
      ensures old(Calm()) ==> Calm() && (v in old(root)[m].versions && old(root)[m].versions[v] == map[] ==> ok)
    {
      ok := Perform(m, RemoveVersion(v));
    }

    method RemoveOne(m: string, v: string, name: string) returns (ok: bool)
      requires Valid() && m in root && v in root[m].versions && !Protected(root[m], v) && name in root[m].versions[v]
      modifies `root, `crashed
      ensures Valid() && m in root && OnlyModel(m) && SameBut(old(root)[m], root[m], v) && v in root[m].versions
      ensures ok ==> |root[m].versions[v]| < |old(root)[m].versions[v]|
      ensures old(Calm()) ==> ok && Calm()
    {
      ok := Perform(m, RemoveVersionFile(v, name));
    }

    /** Directory d with nothing but version v touched. */
    static predicate SameBut(d: ModelDir, e: ModelDir, v: string) {
      e == d.(versions := e.versions) && e.versions - {v} == d.versions - {v}
    }

    /* ---------- activation ---------- */

    /** Directory d with nothing but `current` and one link touched. */
    static predicate Pointed(d: ModelDir, e: ModelDir, name: string, target: string) {
      && e == d.(current := e.current, links := e.links) && e.links - {name} == d.links - {name}
      && (e.current == d.current || e.current == Some(target))
    }

    /** os.Remove of a link whose absence does not matter. */
    method ClearLink(m: string, name: string, ghost target: string)
      requires Valid() && m in root
      modifies `root, `crashed
      ensures Valid() && m in root && OnlyModel(m)
      ensures Pointed(old(root)[m], root[m], name, target) && root[m].current == old(root)[m].current
      ensures old(Calm()) ==> Calm() && name !in root[m].links
    {
      var removed := Perform(m, Unlink(name));
    }

    /** Clearing a left-over link, making a new one and renaming it to `current`. */
    method PointCurrent(m: string, name: string, target: string) returns (ok: bool)
      requires Valid() && m in root && HasModel(root[m], target)
      modifies `root, `crashed
      ensures Valid() && m in root && OnlyModel(m) && Pointed(old(root)[m], root[m], name, target)
      ensures ok ==> root[m].current == Some(target) && root[m].links == old(root)[m].links - {name}
      ensures old(Calm()) ==> ok && Calm()
    {
      ClearLink(m, name, target);
      ok := MakeLink(m, name, target);
      if ok {
        ok := SwitchLink(m, name, target);
      }
    }

    method MakeLink(m: string, name: string, target: string) returns (ok: bool)
      requires Valid() && m in root
      modifies `root, `crashed
      ensures Valid() && m in root && OnlyModel(m)
      ensures Pointed(old(root)[m], root[m], name, target) && root[m].current == old(root)[m].current
      ensures ok ==> name in root[m].links && root[m].links[name] == target
      ensures old(Calm()) ==> Calm() && (name !in old(root)[m].links ==> ok)
    {
      ok := Perform(m, Link(name, target));
    }

    method SwitchLink(m: string, name: string, target: string) returns (ok: bool)
      requires Valid() && m in root && HasModel(root[m], target) && name in root[m].links
               && root[m].links[name] == target
      modifies `root, `crashed
      ensures Valid() && m in root && OnlyModel(m) && Pointed(old(root)[m], root[m], name, target)
      ensures ok ==> root[m].current == Some(target) && root[m].links == old(root)[m].links - {name}
      ensures old(Calm()) ==> ok && Calm()
    {
      ok := Perform(m, Switch(name));
      if !ok {
        ClearLink(m, name, target);
      }
    }

    /** n is the length of the record's JSON text. */
    method ActivateVersion(m: string, v: string, n: nat) returns (r: Result<(), StoreError>)
      requires Valid()
      modifies `root, `crashed
      ensures Valid() && OnlyModel(m)
      ensures m in root <==> m in old(root)
      ensures r.Ok? ==> m in root && HasModel(old(root)[m], v) && root[m] == Activated(old(root)[m], m, v, n)
      ensures m in root ==>
                && root[m].versions == old(root)[m].versions && root[m].temps == old(root)[m].temps
                && (root[m].current == old(root)[m].current || root[m].current == Some(v))
      ensures old(Calm()) ==> Calm() && (r.Ok? <==> m in root && HasModel(old(root)[m], v))
    {
      var ok := Reads();
      if !ok {
        return Err(Io);
      }
      if m !in root || v !in root[m].versions {
        return Err(NotFound);
      }
      if MODEL !in root[m].versions[v] {
        return Err(MissingModel);
      }
      var previous := root[m].current;
      ok := PointCurrent(m, NEXT, v);
      if !ok {
        return Err(Io);
      }
      ok := Perform(m, WriteRollback(Torn(0)));
      if !ok {
        return Err(Io);
      }
      ok := Perform(m, WriteRollback(Json(Activation(m, v, previous), n)));
      if !ok {
        return Err(Io);
      }
      return Ok(());
    }

    /* ---------- rollback ---------- */

    method RollbackActivation(m: string, target: Option<string>) returns (ok: bool)
      requires Valid() && m in root && RollbackTarget(root[m]) == target
      modifies `root, `crashed
      ensures Valid() && OnlyModel(m) && m in root
      ensures root[m] == old(root)[m].(current := root[m].current, links := root[m].links)
      ensures root[m].current == old(root)[m].current || root[m].current == target
      ensures ok ==>
                && root[m].current == target
                && root[m].links == if target.Some? then old(root)[m].links - {BACK} else old(root)[m].links
      ensures target == None && old(root)[m].current == None ==> !ok
      ensures old(Calm()) ==> Calm() && (ok <==> target.Some? || old(root)[m].current.Some?)
    {
      if target == None {
        ok := Perform(m, RemoveCurrent);
        return;
      }
      ok := PointCurrent(m, BACK, target.value);
    }

    /** A rollback record that can be read and is about model m. */
    static predicate RecordFor(root: map<string, ModelDir>, m: string) {
      m in root && Readable(root[m]) && root[m].rollback.value.record.model == m
    }

    /** On success `current` is what the last activation replaced, present or not, and nothing but the
        links and the record has changed besides; the record stays where its removal fails. */
    method RollbackLatest(m: string) returns (r: Result<Option<string>, StoreError>)
      requires Valid()
      modifies `root, `crashed
      ensures Valid() && OnlyModel(m)
      ensures m in root <==> m in old(root)
      ensures m in root ==>
                && root[m].versions == old(root)[m].versions && root[m].temps == old(root)[m].temps
                && (root[m].current == old(root)[m].current || root[m].current == RollbackTarget(old(root)[m]))
      ensures r.Ok? ==> m in root && RecordFor(old(root), m) && r.value == RollbackTarget(old(root)[m])
      ensures r.Ok? ==>
                var d := old(root)[m];
                && root[m] == d.(current := r.value, rollback := root[m].rollback,
                                 links := if r.value.Some? then d.links - {BACK} else d.links)
                && (root[m].rollback == None || root[m].rollback == d.rollback)
      ensures !RecordFor(old(root), m) ==> r.Err? && root == old(root)
      ensures r.Err? && m in root ==> root[m].rollback == old(root)[m].rollback
      ensures old(Calm()) ==>
                && Calm() && (r.Ok? ==> root[m].rollback == None)
                && (r.Ok? <==> RecordFor(old(root), m)
                               && (RollbackTarget(old(root)[m]).Some? || old(root)[m].current.Some?))
    {
      var ok := Reads();
      if !ok {
        return Err(Io);
      }
      if m !in root || root[m].rollback == None {
        return Err(NotFound);
      }
      if !Readable(root[m]) {
        return Err(BadRecord);
      }
      if root[m].rollback.value.record.model != m {
        return Err(WrongModel);
      }
      var target := RollbackTarget(root[m]);
      ok := RollbackActivation(m, target);
      if !ok {
        return Err(Io);
      }
      var removed := Perform(m, RemoveRollback);
      return Ok(target);
    }

    /* ---------- deletion ---------- */

    /** directorySize of one directory. */
    method DirectorySize(dir: Dir) returns (total: nat)
      ensures total == DirSize(dir)
    {
      total := 0;
      var left := dir;
      while left != map[]
        invariant total + Sum(left, FileSize) == DirSize(dir)
        decreases |left|
      {
        var name :| name in left;
        SumWithout(left, FileSize, name);
        total := total + FileSize(left[name]);
        left := left - {name};
      }
    }

    method DirectoriesSize(dirs: map<string, Dir>) returns (total: nat)
      ensures total == Sum(dirs, DirSize)
    {
      total := 0;
      var left := dirs;
      while left != map[]
        invariant total + Sum(left, DirSize) == Sum(dirs, DirSize)
        decreases |left|
      {
        var name :| name in left;
        SumWithout(left, DirSize, name);
        var size := DirectorySize(left[name]);
        total := total + size;
        left := left - {name};
      }
    }

    /** A version that is there, protected by nothing, in a model whose rollback record, if any, can be read. */
    static predicate Deletable(root: map<string, ModelDir>, m: string, v: string) {
      && m != "unnamed" && v != "unnamed" && m in root && v in root[m].versions
      && !Protected(root[m], v) && (root[m].rollback.Some? ==> Readable(root[m]))
    }

    /** The active version and the one retained for rollback are refused; what is reported as
        reclaimed is exactly what the model's directory has lost. */
    method DeleteVersion(m: string, v: string) returns (r: Result<nat, StoreError>)
      requires Valid()
      modifies `root, `crashed
      ensures Valid() && OnlyModel(m)
      ensures m in root <==> m in old(root)
      ensures m in root ==> SameBut(old(root)[m], root[m], v)
      ensures m in root && Protected(old(root)[m], v) ==> r.Err? && root == old(root)
      ensures r.Ok? ==> m in root && v in old(root)[m].versions && v !in root[m].versions
                        && ModelSize(root[m]) + r.value == ModelSize(old(root)[m])
      ensures old(Calm()) ==> Calm() && (r.Ok? <==> Deletable(old(root), m, v))
    {
      var refusal := DeleteRefusal(m, v);
      if refusal.Some? {
        return Err(refusal.value);
      }
      var reclaimed := DirectorySize(root[m].versions[v]);
      ghost var before := root[m];
      var ok := RemoveVersionAll(m, v);
      if !ok {
        return Err(Io);
      }
      VersionGone(before, root[m], v);
      return Ok(reclaimed);
    }

    lemma VersionGone(d: ModelDir, e: ModelDir, v: string)
      requires SameBut(d, e, v) && v in d.versions && v !in e.versions
      ensures ModelSize(e) + DirSize(d.versions[v]) == ModelSize(d)
    {
      SumWithout(d.versions, DirSize, v);
      assert e.versions == e.versions - {v};
    }

    /** What DeleteVersion checks before it touches anything. */
    method DeleteRefusal(m: string, v: string) returns (refusal: Option<StoreError>)
      modifies `crashed
      ensures crashed == old(crashed) && (refusal.None? ==> Deletable(root, m, v))
      ensures Calm() && Deletable(root, m, v) ==> refusal.None?
    {
      if m == "unnamed" || v == "unnamed" {
        return Some(NameRequired);
      }
      var ok := Reads();
      if !ok {
        return Some(Io);
      }
      if m !in root || v !in root[m].versions {
        return Some(NotFound);
      }
      if root[m].current == Some(v) {
        return Some(ActiveVersion);
      }
      if root[m].rollback.Some? && !Readable(root[m]) {
        return Some(BadRecord);
      }
      if RollbackTarget(root[m]) == Some(v) {
        return Some(RollbackVersion);
      }
      refusal := None;
    }

    /** Allowed only with no active version; everything the model's directory held is reclaimed. */
    method DeleteModel(m: string) returns (r: Result<nat, StoreError>)
      requires Valid()
      modifies `root, `crashed
      ensures Valid() && OnlyModel(m)
      ensures m in old(root) && old(root)[m].current.Some? ==> r.Err? && root == old(root)
      ensures r.Ok? ==> m in old(root) && m !in root && r.value == ModelSize(old(root)[m])
      ensures old(Calm()) ==> Calm() && (r.Ok? <==> m != "unnamed" && m in old(root) && old(root)[m].current == None)
    {
      if m == "unnamed" {
        return Err(NameRequired);
      }
      var ok := Reads();
      if !ok {
        return Err(Io);
      }
      if m !in root {
        return Err(NotFound);
      }
      if root[m].current.Some? {
        return Err(ActiveVersion);
      }
      var versions := DirectoriesSize(root[m].versions);
      var temps := DirectoriesSize(root[m].temps);
      var reclaimed := versions + temps + (if root[m].rollback.Some? then FileSize(root[m].rollback.value) else 0);
      ok := RemoveModelAll(m);
      if !ok {
        return Err(Io);
      }
      return Ok(reclaimed);
    }

    /** os.RemoveAll of the model's directory: the pieces in any order, then the directory itself. */
    method RemoveModelAll(m: string) returns (ok: bool)
      requires Valid() && m in root && root[m].current == None
      modifies `root, `crashed
      ensures Valid() && OnlyModel(m)
      ensures ok ==> m !in root
      ensures old(Calm()) ==> ok && Calm()
    {
      ok := RemovePieces(m);
      if ok {
        ok := Reads();
      }
      if ok {
        root := root - {m};
      }
    }

    method RemovePieces(m: string) returns (ok: bool)
      requires Valid() && m in root && root[m].current == None
      modifies `root, `crashed
      ensures Valid() && m in root && OnlyModel(m)
      ensures ok ==> root[m] == EMPTY
      ensures old(Calm()) ==> ok && Calm()
    {
      ok := true;
      while ok && root[m] != EMPTY
        invariant Valid() && m in root && OnlyModel(m) && root[m].current == None
        invariant old(Calm()) ==> ok && Calm()
        decreases ok, Pieces(root[m])
      {
        ok := RemovePiece(m);
      }
    }

    method RemovePiece(m: string) returns (ok: bool)
      requires Valid() && m in root && root[m].current == None && root[m] != EMPTY
      modifies `root, `crashed
      ensures Valid() && m in root && OnlyModel(m) && root[m].current == None
      ensures ok ==> Pieces(root[m]) < Pieces(old(root)[m])
      ensures old(Calm()) ==> ok && Calm()
    {
      var c: Call := *;
      if !Removal(c) || Do(root[m], c).None? {
        c := SomePiece(root[m]);
      }
      RemovalShrinks(root[m], c);
      ok := Perform(m, c);
    }

    /* ---------- installation ---------- */

    /** Directory d with nothing but temporary directory t touched. */
    static predicate TempTouched(d: ModelDir, e: ModelDir, t: string) {
      e == d.(temps := e.temps) && e.temps - {t} == d.temps - {t}
    }

    method WriteOnce(m: string, t: string, name: string, file: File) returns (ok: bool)
      requires Valid() && m in root && t in root[m].temps
      modifies `root, `crashed
      ensures Valid() && m in root && OnlyModel(m) && TempTouched(old(root)[m], root[m], t) && t in root[m].temps
      ensures ok ==> root[m].temps[t] == old(root)[m].temps[t][name := file]
      ensures old(Calm()) ==> ok && Calm()
    {
      ok := Perform(m, WriteTemp(t, name, file));
    }

    /** One file of the temporary directory, torn until it is whole. */
    method WriteFile(m: string, t: string, name: string, file: File, partial: nat) returns (ok: bool)
      requires Valid() && m in root && t in root[m].temps
      modifies `root, `crashed
      ensures Valid() && m in root && OnlyModel(m) && TempTouched(old(root)[m], root[m], t) && t in root[m].temps
      ensures ok ==> root[m].temps[t] == old(root)[m].temps[t][name := file]
      ensures old(Calm()) ==> ok && Calm()
    {
      ok := WriteOnce(m, t, name, Torn(partial));
      if ok {
        ok := WriteOnce(m, t, name, file);
      }
    }

    /** VerifySHA256 has accepted the copied file. */
    ghost method Accept(m: string, v: string, bytes: Bytes, sha256: string)
      requires Valid() && sha256 == hash(bytes)
      modifies `verified
      ensures Valid() && (v, bytes, sha256) in Accepted(m)
    {
      var more := Accepted(m) + {(v, bytes, sha256)};
      if m in root {
        MoreVerified(hash, Accepted(m), more, root[m]);
      }
      verified := verified[m := more];
    }

    /** Copying, verifying and describing the model in a temporary directory. */
    method FillTemp(t: string, p: Package, source: Option<Bytes>) returns (r: Result<(), StoreError>)
      requires Valid() && p.model in root && t in root[p.model].temps && root[p.model].temps[t] == map[]
      requires source.Some? ==> p.bytes == source.value
      modifies `root, `crashed, `verified
      ensures Valid() && p.model in root && OnlyModel(p.model) && TempTouched(old(root)[p.model], root[p.model], t)
      ensures r.Ok? ==>
                && source.Some? && p.sha256 == hash(p.bytes) && (p.version, p.bytes, p.sha256) in Accepted(p.model)
                && t in root[p.model].temps && root[p.model].temps[t] == Contents(p)
      ensures old(Calm()) ==> Calm() && (r.Ok? <==> source.Some? && p.sha256 == hash(p.bytes))
    {
      var m := p.model;
      if source == None {
        return Err(Io);
      }
      var ok := WriteFile(m, t, MODEL, Blob(p.bytes), p.partial);
      if !ok {
        return Err(Io);
      }
      if hash(p.bytes) != p.sha256 {
        return Err(ChecksumMismatch);
      }
      Accept(m, p.version, p.bytes, p.sha256);
      ok := WriteFile(m, t, MANIFEST, Json(Manifest(m, p.version, p.catalogId, p.sha256), p.manifestSize), 0);
      if !ok {
        return Err(Io);
      }
      ok := WriteFile(m, t, CHECKSUM, Checksum(p.sha256, p.checksumSize), 0);
      if !ok {
        return Err(Io);
      }
      return Ok(());
    }

    /** os.MkdirTemp tries names until one is unused. */
    method TempName(m: string) returns (t: string)
      requires m in root
      ensures t !in root[m].temps
    {
      t := *;
      while t in root[m].temps
        decreases |AtLeast(root[m].temps.Keys, |t|)|
      {
        FewerNames(root[m].temps.Keys, t);
        t := t + "0";
      }
    }

    /** The part of InstallLocalFile that knows the version is new. */
    method PlaceVersion(p: Package, source: Option<Bytes>) returns (r: Result<(), StoreError>)
      requires Valid() && p.model in root && p.version !in root[p.model].versions
      requires source.Some? ==> p.bytes == source.value
      modifies `root, `crashed, `verified
      ensures Valid() && p.model in root && OnlyModel(p.model)
      ensures root[p.model] == old(root)[p.model].(versions := root[p.model].versions, temps := root[p.model].temps)
      ensures r.Ok? ==>
                && source.Some? && p.sha256 == hash(source.value)
                && var d := old(root)[p.model]; root[p.model] == d.(versions := d.versions[p.version := Contents(p)])
      ensures root[p.model].versions == old(root)[p.model].versions
              || root[p.model].versions == old(root)[p.model].versions[p.version := Contents(p)]
      ensures old(Calm()) ==> Calm() && (r.Ok? <==> source.Some? && p.sha256 == hash(p.bytes))
    {
      var m := p.model;
      ghost var d := root[m];
      var t := TempName(m);
      var ok := Perform(m, MakeTemp(t));
      if !ok {
        return Err(Io);
      }
      assert t !in d.temps && root[m].temps - {t} == d.temps;
      r := FillTemp(t, p, source);
      if r.Ok? {
        ok := PublishTemp(t, p);
        if ok {
          return;
        }
        r := Err(Io);
      }
      RemoveTempAll(m, t);
    }

    method PublishTemp(t: string, p: Package) returns (ok: bool)
      requires Valid() && p.model in root && p.version !in root[p.model].versions
      requires t in root[p.model].temps && root[p.model].temps[t] == Contents(p)
      requires p.sha256 == hash(p.bytes) && (p.version, p.bytes, p.sha256) in Accepted(p.model)
      modifies `root, `crashed
      ensures Valid() && p.model in root && OnlyModel(p.model)
      ensures var d := old(root)[p.model];
              var e := d.(versions := d.versions[p.version := Contents(p)], temps := d.temps - {t});
              (root[p.model] == d || root[p.model] == e) && (ok ==> root[p.model] == e)
      ensures old(Calm()) ==> ok && Calm()
    {
      assert Intact(hash, Accepted(p.model), p.version, Contents(p));
      ok := Perform(p.model, Publish(t, p.version));
    }

    predicate Installable(root: map<string, ModelDir>, p: Package, source: Option<Bytes>) {
      && p.model != "unnamed" && p.version != "unnamed" && p.sha256 != ""
      && source.Some? && p.sha256 == hash(source.value) && p.version !in Before(root, p.model).versions
    }

    /** `source` is what can be read at the source path, if anything; p.sha256 is the expected
        checksum as the store compares it, p.bytes is what gets copied. On success the version is
        there as a whole; otherwise it is absent or there as a whole. */
    method InstallLocalFile(p: Package, source: Option<Bytes>, activate: bool, n: nat)
        returns (r: Result<(), StoreError>)
      requires Valid() && (source.Some? ==> p.bytes == source.value)
      modifies `root, `crashed, `verified
      ensures Valid() && OnlyModel(p.model)
      ensures p.model in old(root) ==> p.model in root
      ensures r.Ok? ==>
                && source.Some? && p.sha256 == hash(source.value) && p.model in root
                && var d := Before(old(root), p.model);
                   var e := d.(versions := d.versions[p.version := Contents(p)]);
                   && p.version !in d.versions
                   && root[p.model] == if activate then Activated(e, p.model, p.version, n) else e
      ensures p.model in root ==>
                var d := Before(old(root), p.model);
                && (root[p.model].versions == d.versions
                    || (p.version !in d.versions && root[p.model].versions == d.versions[p.version := Contents(p)]))
                && (root[p.model].current == d.current || (activate && root[p.model].current == Some(p.version)))
      ensures old(Calm()) ==> Calm() && (r.Ok? <==> Installable(old(root), p, source))
    {
      var m := p.model;
      if m == "unnamed" || p.version == "unnamed" {
        return Err(NameRequired);
      }
      if p.sha256 == "" {
        return Err(ChecksumRequired);
      }
      var ok := EnsureLayout(m);
      if !ok {
        return Err(Io);
      }
      if p.version in root[m].versions {
        return Err(VersionExists);
      }
      r := PlaceVersion(p, source);
      if r.Ok? && activate {
        r := ActivateVersion(m, p.version, n);
      }
    }

    static function Before(root: map<string, ModelDir>, m: string): ModelDir { if m in root then root[m] else EMPTY }
  }
}
