/**
 A resumable download: what one attempt does to the two files on disk, and what follows for any
 history of attempts against any server.
 */
module Download {
  import opened Common
  import opened Bytes

  /* ---------- the checksum ---------- */

  const DIGITS := "0123456789abcdef"

  /** hex.EncodeToString */
  function Hex(b: Bytes): (t: string)
    ensures |t| == 2 * |b|
  {
    if b == [] then [] else [DIGITS[b[0] / 16], DIGITS[b[0] % 16]] + Hex(b[1..])
  }

  function Nibble(c: char): (n: int)
    ensures n == -1 || 0 <= n < 16
  {
    if '0' <= c <= '9' then c as int - '0' as int
    else if 'a' <= c <= 'f' then c as int - 'a' as int + 10
    else if 'A' <= c <= 'F' then c as int - 'A' as int + 10
    else -1
  }

  /** hex.DecodeString */
  function UnHex(t: string): Option<Bytes> {
    if t == [] then Some([])
    else if |t| == 1 || Nibble(t[0]) < 0 || Nibble(t[1]) < 0 || UnHex(t[2..]).None? then None
    else Some([16 * Nibble(t[0]) + Nibble(t[1])] + UnHex(t[2..]).value)
  }

  function Lower(c: char): char { if 'A' <= c <= 'Z' then (c as int + 32) as char else c }

  /** strings.EqualFold; both texts consist of hexadecimal digits where it is used. */
  predicate EqualFold(s: string, t: string) { |s| == |t| && forall i :: 0 <= i < |s| ==> Lower(s[i]) == Lower(t[i]) }

  lemma NibbleOfDigit(n: nat, c: char)
    requires n < 16 && Nibble(c) >= 0
    ensures Lower(DIGITS[n]) == Lower(c) <==> Nibble(c) == n
  {
    assert DIGITS[n] as int == if n < 10 then 48 + n else 87 + n;
  }

  lemma PairOfDigits(b: byte, c: char, e: char)
    requires Nibble(c) >= 0 && Nibble(e) >= 0
    ensures Lower(DIGITS[b / 16]) == Lower(c) && Lower(DIGITS[b % 16]) == Lower(e) <==> b == 16 * Nibble(c) + Nibble(e)
  {
    NibbleOfDigit(b / 16, c);
    NibbleOfDigit(b % 16, e);
  }

  lemma EqualFoldFirstTwo(s: string, t: string)
    requires |s| == |t| >= 2
    ensures EqualFold(s, t) <==> Lower(s[0]) == Lower(t[0]) && Lower(s[1]) == Lower(t[1]) && EqualFold(s[2..], t[2..])
  {
    if EqualFold(s[2..], t[2..]) && Lower(s[0]) == Lower(t[0]) && Lower(s[1]) == Lower(t[1]) {
      forall i | 0 <= i < |s|
        ensures Lower(s[i]) == Lower(t[i])
      {
        assert i >= 2 ==> s[i] == s[2..][i - 2] && t[i] == t[2..][i - 2];
      }
    }
  }

  lemma {:induction false} DecodedLength(t: string)
    requires UnHex(t).Some?
    ensures |t| == 2 * |UnHex(t).value|
  {
    if t != [] {
      DecodedLength(t[2..]);
    }
  }

  /** Comparing the texts is comparing the digests. */
  lemma {:induction false} EqualFoldIff(h: Bytes, t: string)
    requires UnHex(t).Some?
    ensures EqualFold(Hex(h), t) <==> UnHex(t).value == h
  {
    DecodedLength(t);
    if h != [] && |t| == 2 * |h| {
      EqualFoldIff(h[1..], t[2..]);
      PairOfDigits(h[0], t[0], t[1]);
      EqualFoldFirstTwo(Hex(h), t);
      assert Hex(h)[2..] == Hex(h[1..]) && UnHex(t).value[1..] == UnHex(t[2..]).value;
      assert h == [h[0]] + h[1..];
    }
  }

  /* ---------- the file name ---------- */

  function TrimSlashes(p: string): string {
    if p != "" && p[|p| - 1] == '/' then TrimSlashes(p[..|p| - 1]) else p
  }

  function LastPart(p: string): string {
    if p == "" || p[|p| - 1] == '/' then "" else LastPart(p[..|p| - 1]) + [p[|p| - 1]]
  }

  /** filepath.Base */
  function BaseName(p: string): string {
    if p == "" then "."
    else if TrimSlashes(p) == "" then "/"
    else LastPart(TrimSlashes(p))
  }

  predicate NameAccepted(name: string) { name != "" && name == BaseName(name) && name != "." }

  lemma {:induction false} LastPartIsWhole(p: string)
    ensures '/' !in LastPart(p) && ('/' !in p ==> LastPart(p) == p)
  {
    if p != "" && p[|p| - 1] != '/' {
      LastPartIsWhole(p[..|p| - 1]);
      assert p == p[..|p| - 1] + [p[|p| - 1]];
    }
  }

  /** An accepted file name is a single path component, or the root: comparing with the base name lets
      `/` and `..` through. */
  lemma NameAcceptedIff(name: string)
    ensures NameAccepted(name) <==> name == "/" || (name != "" && name != "." && '/' !in name)
  {
    LastPartIsWhole(TrimSlashes(name));
    LastPartIsWhole(name);
    assert TrimSlashes("/") == TrimSlashes("");
  }

  /** Joined to the download directory, the other two accepted names are directories that are there. */
  predicate NamesFile(name: string) { name != "/" && name != ".." }

  /* ---------- one attempt ---------- */

  /** The checksum text is taken without surrounding space. */
  datatype Artifact = Artifact(filename: string, size: uint64, sha256: string)

  datatype Disk = Disk(final: Option<Bytes>, partial: Option<Bytes>)

  /** The body ends after `body`, properly or (`broken`) with a read error. */
  datatype Response = Response(status: int, body: Bytes, broken: bool)

  datatype Call = MakeDirectory | StatFinal | StatPartial | RemovePartial | OpenPartial | Sync | ReadBack | Rename

  /** What the surroundings do during an attempt: the answer of the server if there is one, how many
      bytes reach the partial file before a write fails or the program is killed, and the first other
      call that fails or is not reached. */
  datatype World = World(response: Option<Response>, landed: nat, fault: Option<Call>)

  const MAX_SIZE := 0x7FFF_FFFF_FFFF_FFFE

  /** validateDownload, apart from the URL and the destination. */
  predicate Accepts(a: Artifact) {
    && NameAccepted(a.filename) && 0 < a.size <= MAX_SIZE
    && UnHex(a.sha256).Some? && |UnHex(a.sha256).value| == 32
  }

  predicate Usable(a: Artifact) { Accepts(a) && NamesFile(a.filename) }

  predicate Verifies(hash: Bytes -> Bytes, a: Artifact, b: Bytes) { EqualFold(Hex(hash(b)), a.sha256) }

  function Take(b: Bytes, n: nat): Bytes { if n < |b| then b[..n] else b }

  /** verifyFile and os.Rename on a partial file of the right size. */
  function Finish(hash: Bytes -> Bytes, a: Artifact, d: Disk, w: World): (Disk, bool) {
    if d.partial.None? || w.fault == Some(ReadBack) || !Verifies(hash, a, d.partial.value)
      || w.fault == Some(Rename) then (d, false)
    else (Disk(d.partial, None), true)
  }

  function Offset(d: Disk): nat { if d.partial.Some? then |d.partial.value| else 0 }

  /** What the partial file keeps when the answer has this status. */
  function Base(d: Disk, status: int): Bytes { if status == 206 && d.partial.Some? then d.partial.value else [] }

  /** From the request on; the partial file, if any, is shorter than the artifact. */
  function Fetch(hash: Bytes -> Bytes, a: Artifact, d: Disk, w: World): (Disk, bool)
    requires Offset(d) < a.size
  {
    if w.response.None? || (w.response.value.status != 200 && w.response.value.status != 206)
      || w.fault == Some(OpenPartial) then (d, false)
    else
      var r := w.response.value;
      var base := Base(d, r.status);
      var limit := a.size - |base| + 1;
      var incoming := Take(r.body, limit);
      var stored := d.(partial := Some(base + Take(incoming, w.landed)));
      if w.landed < |incoming| || (r.broken && |r.body| < limit) || w.fault == Some(Sync)
        || Offset(stored) != a.size then (stored, false)
      else Finish(hash, a, stored, w)
  }

  function Attempt(hash: Bytes -> Bytes, a: Artifact, d: Disk, w: World): (Disk, bool) {
    if !Accepts(a) || w.fault == Some(MakeDirectory) || w.fault == Some(StatFinal) || !NamesFile(a.filename)
    then (d, false)
    else if d.final.Some? then
      (d, |d.final.value| == a.size && w.fault != Some(ReadBack) && Verifies(hash, a, d.final.value))
    else if w.fault == Some(StatPartial) then (d, false)
    else if Offset(d) > a.size then
      if w.fault == Some(RemovePartial) then (d, false) else Fetch(hash, a, d.(partial := None), w)
    else if Offset(d) == a.size then Finish(hash, a, d, w)
    else Fetch(hash, a, d, w)
  }

  /** The disk after a whole history of attempts. */
  function Attempts(hash: Bytes -> Bytes, a: Artifact, d: Disk, ws: seq<World>): Disk
    decreases |ws|
  {
    if ws == [] then d else Attempts(hash, a, Attempt(hash, a, d, ws[0]).0, ws[1..])
  }

  /* ---------- what is on disk ---------- */

  predicate Complete(hash: Bytes -> Bytes, a: Artifact, b: Bytes) { |b| == a.size && Some(hash(b)) == UnHex(a.sha256) }

  predicate Sound(hash: Bytes -> Bytes, a: Artifact, d: Disk) {
    (d.final.Some? ==> Complete(hash, a, d.final.value)) && Offset(d) <= a.size + 1
  }

  /** An attempt that finds no final file succeeds exactly when it leaves one; it never touches one that is there. */
  lemma AttemptIsSound(hash: Bytes -> Bytes, a: Artifact, d: Disk, w: World)
    requires Sound(hash, a, d)
    ensures var (e, ok) := Attempt(hash, a, d, w);
            Sound(hash, a, e) && (if d.final.Some? then e == d else ok <==> e.final.Some?)
  {
    if Accepts(a) {
      var digest := UnHex(a.sha256).value;
      forall b: Bytes
        ensures Verifies(hash, a, b) <==> hash(b) == digest
      {
        EqualFoldIff(hash(b), a.sha256);
      }
    }
  }

  /** No call that an attempt from here makes fails. */
  predicate NoFault(a: Artifact, d: Disk, w: World) {
    match w.fault
    case None => true
    case Some(RemovePartial) => Offset(d) <= a.size
    case Some(OpenPartial) => Offset(d) == a.size
    case Some(Sync) => Offset(d) == a.size
    case Some(_) => false
  }

  /** What the partial file would have after a proper answer all of which reaches it. */
  function Brought(a: Artifact, d: Disk, w: World): Option<Bytes> {
    if Offset(d) == a.size then d.partial
    else if w.response.None? || w.response.value.broken || w.landed < |w.response.value.body| then None
    else match w.response.value.status
         case 200 => Some(w.response.value.body)
         case 206 =>
           var kept := if Offset(d) < a.size && d.partial.Some? then d.partial.value else [];
           Some(kept + w.response.value.body)
         case _ => None
  }

  lemma DigestsCompare(hash: Bytes -> Bytes, a: Artifact, b: Bytes)
    requires Accepts(a)
    ensures Verifies(hash, a, b) <==> Some(hash(b)) == UnHex(a.sha256)
  {
    EqualFoldIff(hash(b), a.sha256);
  }

  /** The attempt has the outcome that what is brought calls for. */
  predicate SucceedsIff(hash: Bytes -> Bytes, a: Artifact, d: Disk, w: World) {
    var (e, ok) := Attempt(hash, a, d, w);
    && (ok <==> Usable(a) && NoFault(a, d, w)
                && Brought(a, d, w).Some? && Complete(hash, a, Brought(a, d, w).value))
    && (ok ==> e == Disk(Brought(a, d, w), None))
  }

  /** An attempt without a final file succeeds exactly if nothing fails and the file as it is then has
      the size and the digest of the catalog; a byte too many is as bad as one too few. */
  lemma AttemptSucceedsIff(hash: Bytes -> Bytes, a: Artifact, d: Disk, w: World)
    requires d.final.None?
    ensures SucceedsIff(hash, a, d, w)
  {
    if Usable(a) {
      if Offset(d) == a.size {
        DigestsCompare(hash, a, d.partial.value);
      } else {
        TransferSucceedsIff(hash, a, d, w);
      }
    }
  }

  lemma TransferSucceedsIff(hash: Bytes -> Bytes, a: Artifact, d: Disk, w: World)
    requires d.final.None? && Usable(a) && Offset(d) != a.size
    ensures SucceedsIff(hash, a, d, w)
  {
    if w.response.Some? {
      var start := if Offset(d) > a.size then d.(partial := None) else d;
      FetchSucceedsIff(hash, a, start, w);
      assert [] + w.response.value.body == w.response.value.body;
    }
  }

  lemma FetchSucceedsIff(hash: Bytes -> Bytes, a: Artifact, d: Disk, w: World)
    requires Accepts(a) && d.final.None? && Offset(d) < a.size && w.response.Some?
    ensures var r, (e, ok) := w.response.value, Fetch(hash, a, d, w);
            var whole := Base(d, r.status) + r.body;
            && (ok <==> (r.status == 200 || r.status == 206) && !r.broken && w.landed >= |r.body|
                        && w.fault != Some(OpenPartial) && w.fault != Some(Sync)
                        && w.fault != Some(ReadBack) && w.fault != Some(Rename)
                        && Complete(hash, a, whole))
            && (ok ==> e == Disk(Some(whole), None))
  {
    var r := w.response.value;
    var base := Base(d, r.status);
    var limit := a.size - |base| + 1;
    var stored := base + Take(Take(r.body, limit), w.landed);
    if |stored| == a.size {
      DigestsCompare(hash, a, stored);
    }
    if |base + r.body| == a.size && w.landed >= |r.body| {
      assert stored == base + r.body;
    }
  }

  /** An answer of any other kind, or none, leaves what was there. */
  lemma OtherAnswersChangeNothing(hash: Bytes -> Bytes, a: Artifact, d: Disk, w: World)
    requires w.response.Some? ==> w.response.value.status != 200 && w.response.value.status != 206
    requires d.final.None? && Offset(d) != a.size
    ensures var (e, ok) := Attempt(hash, a, d, w); !ok && (e == d || (Offset(d) > a.size && e == Disk(None, None)))
  {
  }

  /** Whatever the server sends, whatever fails and however often the download is tried again: a final
      file has the size and the digest of the catalog, and the partial file is at most one byte too long. */
  lemma {:induction false} FinalIsVerified(hash: Bytes -> Bytes, a: Artifact, d: Disk, ws: seq<World>)
    requires Sound(hash, a, d)
    ensures Sound(hash, a, Attempts(hash, a, d, ws))
    ensures d.final.Some? ==> Attempts(hash, a, d, ws) == d
    decreases |ws|
  {
    if ws != [] {
      AttemptIsSound(hash, a, d, ws[0]);
      FinalIsVerified(hash, a, Attempt(hash, a, d, ws[0]).0, ws[1..]);
    }
  }

  /* ---------- a server that follows sections 14.2 and 15.3.7 of RFC 9110 ---------- */

  /** The offset an attempt would ask for. */
  function Asked(a: Artifact, d: Disk): nat { if Offset(d) > a.size then 0 else Offset(d) }

  /** 206 answers a range request with the rest of the content, 200 sends it from the start; either
      may be cut short. */
  predicate Faithful(a: Artifact, content: Bytes, d: Disk, w: World) {
    w.response.Some? && Offset(d) != a.size ==>
      var r := w.response.value;
      && (r.status == 206 ==> 0 < Asked(a, d) <= |content| && r.body <= content[Asked(a, d)..])
      && (r.status == 200 ==> r.body <= content)
  }

  predicate FaithfulThroughout(hash: Bytes -> Bytes, a: Artifact, content: Bytes, d: Disk, ws: seq<World>)
    decreases |ws|
  {
    ws != [] ==> Faithful(a, content, d, ws[0])
                 && FaithfulThroughout(hash, a, content, Attempt(hash, a, d, ws[0]).0, ws[1..])
  }

  predicate PrefixOf(content: Bytes, d: Disk) {
    (d.partial.Some? ==> d.partial.value <= content) && (d.final.Some? ==> d.final.value == content)
  }

  lemma TakeIsPrefix(b: Bytes, n: nat, m: nat, content: Bytes)
    requires b <= content
    ensures Take(Take(b, n), m) <= content
  {
  }

  lemma Glue(base: Bytes, rest: Bytes, content: Bytes)
    requires base <= content && rest <= content[|base|..]
    ensures base + rest <= content
  {
  }

  lemma AttemptKeepsPrefix(hash: Bytes -> Bytes, a: Artifact, content: Bytes, d: Disk, w: World)
    requires |content| == a.size && PrefixOf(content, d) && Faithful(a, content, d, w)
    ensures PrefixOf(content, Attempt(hash, a, d, w).0)
  {
    if w.response.Some? && Offset(d) < a.size {
      var r := w.response.value;
      var base := Base(d, r.status);
      if r.status == 200 || r.status == 206 {
        var limit := a.size - |base| + 1;
        TakeIsPrefix(r.body, limit, w.landed, content[|base|..]);
        Glue(base, Take(Take(r.body, limit), w.landed), content);
      }
    }
  }

  /** The partial file is always a prefix of the content, and a final file is the content: no
      assumption about the hash is needed. */
  lemma {:induction false} PartialIsPrefix(hash: Bytes -> Bytes, a: Artifact, content: Bytes, d: Disk, ws: seq<World>)
    requires |content| == a.size && PrefixOf(content, d) && FaithfulThroughout(hash, a, content, d, ws)
    ensures PrefixOf(content, Attempts(hash, a, d, ws))
    decreases |ws|
  {
    if ws != [] {
      AttemptKeepsPrefix(hash, a, content, d, ws[0]);
      PartialIsPrefix(hash, a, content, Attempt(hash, a, d, ws[0]).0, ws[1..]);
    }
  }

  /** What is still missing. */
  function Remaining(a: Artifact, d: Disk): int { if d.final.Some? then 0 else a.size - Asked(a, d) }

  /** An attempt that opens the partial file for what the server sent. */
  predicate Delivers(a: Artifact, d: Disk, w: World) {
    && w.response.Some? && w.response.value.body != [] && w.landed > 0
    && (w.response.value.status == 200 || w.response.value.status == 206)
    && (w.fault.Some? ==> w.fault.value in {Sync, ReadBack, Rename})
    && Usable(a) && d.final.None? && Offset(d) != a.size
  }

  /** The number of bytes that reach the file. */
  function Delivered(w: World): nat
    requires w.response.Some?
  {
    if w.landed < |w.response.value.body| then w.landed else |w.response.value.body|
  }

  /** Less remains after an attempt exactly when the server honoured the range, or sent more from the
      start than was there already: an answer of 200 throws the partial file away first. */
  lemma ProgressIff(hash: Bytes -> Bytes, a: Artifact, content: Bytes, d: Disk, w: World)
    requires |content| == a.size && PrefixOf(content, d) && Faithful(a, content, d, w) && Delivers(a, d, w)
    ensures Remaining(a, Attempt(hash, a, d, w).0) < Remaining(a, d)
            <==> (w.response.value.status == 206 || Delivered(w) > Asked(a, d))
    ensures Remaining(a, Attempt(hash, a, d, w).0) > Remaining(a, d)
            <==> (w.response.value.status == 200 && Delivered(w) < Asked(a, d))
  {
    AttemptKeepsPrefix(hash, a, content, d, w);
    assert Offset(d) < a.size;
  }

  /** The failing case is met: a faithful answer of 200 to a resumed download, cut off after one byte,
      leaves less on disk than there was. */
  lemma ResumeCanLose(hash: Bytes -> Bytes, a: Artifact, content: Bytes, j: nat)
    requires Usable(a) && |content| == a.size && 1 < j < a.size
    ensures var d, w := Disk(None, Some(content[..j])), World(Some(Response(200, content[..1], true)), 1, None);
            && PrefixOf(content, d) && Faithful(a, content, d, w) && Delivers(a, d, w)
            && Remaining(a, Attempt(hash, a, d, w).0) > Remaining(a, d)
  {
    assert content[..j] <= content && content[..1] <= content;
  }

  /** An attempt in which only the transfer can be cut short, and some of it arrives if there is one. */
  predicate Productive(a: Artifact, d: Disk, w: World) {
    w.fault.None? && (Offset(d) == a.size || Transfers(a, d, w))
  }

  predicate Transfers(a: Artifact, d: Disk, w: World) {
    && w.landed > 0 && w.response.Some? && w.response.value.body != []
    && w.response.value.status == if Asked(a, d) > 0 then 206 else 200
  }

  /** How many attempts of a history are productive. */
  function ProductiveCount(hash: Bytes -> Bytes, a: Artifact, d: Disk, ws: seq<World>): nat
    decreases |ws|
  {
    if ws == [] then 0
    else (if Productive(a, d, ws[0]) then 1 else 0) + ProductiveCount(hash, a, Attempt(hash, a, d, ws[0]).0, ws[1..])
  }

  /** The answer 200 to a range request, which throws the partial file away. */
  predicate Restarts(a: Artifact, d: Disk, w: World) {
    w.response.Some? && w.response.value.status == 200 && 0 < Offset(d) < a.size
  }

  predicate NeverRestarts(hash: Bytes -> Bytes, a: Artifact, d: Disk, ws: seq<World>)
    decreases |ws|
  {
    ws != [] ==> !Restarts(a, d, ws[0]) && NeverRestarts(hash, a, Attempt(hash, a, d, ws[0]).0, ws[1..])
  }

  lemma FetchStores(hash: Bytes -> Bytes, a: Artifact, d: Disk, w: World)
    requires Offset(d) < a.size && w.fault.None? && w.response.Some?
             && (w.response.value.status == 200 || w.response.value.status == 206)
    ensures var base := Base(d, w.response.value.status);
            var stored := base + Take(Take(w.response.value.body, a.size - |base| + 1), w.landed);
            Fetch(hash, a, d, w).0 == d.(partial := Some(stored)) || Fetch(hash, a, d, w).0 == Disk(Some(stored), None)
  {
  }

  lemma ProductiveFetch(hash: Bytes -> Bytes, a: Artifact, d: Disk, w: World)
    requires Offset(d) < a.size && Transfers(a, d, w) && w.fault.None?
    ensures var e := Fetch(hash, a, d, w).0; e.final.Some? || Offset(e) > Offset(d)
  {
    FetchStores(hash, a, d, w);
  }

  /** The partial file grows, or the download is complete; a transfer that brought the last byte and
      then broke off is verified by the next attempt. */
  lemma ProductiveAttempt(hash: Bytes -> Bytes, a: Artifact, content: Bytes, d: Disk, w: World)
    requires Usable(a) && Complete(hash, a, content) && PrefixOf(content, d) && d.final.None?
    requires Productive(a, d, w)
    ensures var e := Attempt(hash, a, d, w).0; e.final.Some? || Offset(e) > Offset(d)
  {
    EqualFoldIff(hash(content), a.sha256);
    if Offset(d) == a.size {
      assert d.partial.value == content;
    } else {
      ProductiveFetch(hash, a, d, w);
    }
  }

  /** Any other attempt that does not start over leaves at least what was there. */
  lemma AttemptLosesNothing(hash: Bytes -> Bytes, a: Artifact, content: Bytes, d: Disk, w: World)
    requires |content| == a.size && PrefixOf(content, d) && d.final.None?
    requires Faithful(a, content, d, w) && !Restarts(a, d, w)
    ensures var e := Attempt(hash, a, d, w).0; e.final.Some? || Offset(e) >= Offset(d)
  {
  }

  lemma {:induction false} CompletesFrom(hash: Bytes -> Bytes, a: Artifact, content: Bytes, d: Disk, ws: seq<World>)
    requires Usable(a) && Complete(hash, a, content) && PrefixOf(content, d)
    requires FaithfulThroughout(hash, a, content, d, ws) && NeverRestarts(hash, a, d, ws)
    requires d.final.Some? || ProductiveCount(hash, a, d, ws) > a.size - Offset(d)
    ensures Attempts(hash, a, d, ws).final == Some(content)
    decreases |ws|
  {
    if d.final.Some? {
      Untouched(hash, a, d, ws);
    } else {
      AttemptKeepsPrefix(hash, a, content, d, ws[0]);
      AttemptLosesNothing(hash, a, content, d, ws[0]);
      if Productive(a, d, ws[0]) {
        ProductiveAttempt(hash, a, content, d, ws[0]);
      }
      CompletesFrom(hash, a, content, Attempt(hash, a, d, ws[0]).0, ws[1..]);
    }
  }

  lemma {:induction false} Untouched(hash: Bytes -> Bytes, a: Artifact, d: Disk, ws: seq<World>)
    requires d.final.Some?
    ensures Attempts(hash, a, d, ws) == d
    decreases |ws|
  {
    if ws != [] {
      Untouched(hash, a, d, ws[1..]);
    }
  }

  /** Any history of a faithful server that never starts over completes the download once it contains one
      productive attempt more than the artifact has bytes, whatever failures lie between them. */
  lemma RetriesComplete(hash: Bytes -> Bytes, a: Artifact, content: Bytes, ws: seq<World>)
    requires Usable(a) && Complete(hash, a, content)
    requires FaithfulThroughout(hash, a, content, Disk(None, None), ws)
    requires NeverRestarts(hash, a, Disk(None, None), ws)
    requires ProductiveCount(hash, a, Disk(None, None), ws) > a.size
    ensures Attempts(hash, a, Disk(None, None), ws).final == Some(content)
  {
    CompletesFrom(hash, a, content, Disk(None, None), ws);
  }

  /** One byte arrives, then the server starts over and breaks off at once. */
  function OneByte(content: Bytes): World
    requires content != []
  {
    World(Some(Response(200, content[..1], true)), 1, None)
  }

  const NO_BYTE := World(Some(Response(200, [], true)), 1, None)

  function Cycles(content: Bytes, n: nat): seq<World>
    requires content != []
  {
    if n == 0 then [] else [OneByte(content)] + ([NO_BYTE] + Cycles(content, n - 1))
  }

  lemma OneCycle(hash: Bytes -> Bytes, a: Artifact, content: Bytes, d: Disk)
    requires Usable(a) && |content| == a.size > 1 && d.final.None? && Offset(d) == 0
    ensures Faithful(a, content, d, OneByte(content)) && Productive(a, d, OneByte(content))
    ensures var e := Attempt(hash, a, d, OneByte(content)).0;
            && e == Disk(None, Some(content[..1])) && Faithful(a, content, e, NO_BYTE) && !Productive(a, e, NO_BYTE)
            && Attempt(hash, a, e, NO_BYTE).0 == Disk(None, Some([]))
  {
    assert [] + content[..1] == content[..1] && content[..1] <= content;
  }

  lemma OneMore(hash: Bytes -> Bytes, a: Artifact, content: Bytes, d: Disk, w: World, ws: seq<World>)
    ensures var e := Attempt(hash, a, d, w).0;
            && (FaithfulThroughout(hash, a, content, d, [w] + ws) <==>
                  Faithful(a, content, d, w) && FaithfulThroughout(hash, a, content, e, ws))
            && ProductiveCount(hash, a, d, [w] + ws)
               == (if Productive(a, d, w) then 1 else 0) + ProductiveCount(hash, a, e, ws)
            && Attempts(hash, a, d, [w] + ws) == Attempts(hash, a, e, ws)
  {
    assert ([w] + ws)[1..] == ws;
  }

  lemma CycleFirst(hash: Bytes -> Bytes, a: Artifact, content: Bytes, d: Disk, rest: seq<World>)
    requires Usable(a) && |content| == a.size > 1 && d.final.None? && Offset(d) == 0
    ensures var e, ws := Disk(None, Some([])), [OneByte(content)] + ([NO_BYTE] + rest);
            && (FaithfulThroughout(hash, a, content, e, rest) ==> FaithfulThroughout(hash, a, content, d, ws))
            && ProductiveCount(hash, a, d, ws) == 1 + ProductiveCount(hash, a, e, rest)
            && Attempts(hash, a, d, ws) == Attempts(hash, a, e, rest)
  {
    OneCycle(hash, a, content, d);
    OneMore(hash, a, content, Disk(None, Some(content[..1])), NO_BYTE, rest);
    OneMore(hash, a, content, d, OneByte(content), [NO_BYTE] + rest);
  }

  /** A faithful server that keeps starting over can be productive any number of times in vain. */
  lemma {:induction false} RestartsNeedNotComplete(hash: Bytes -> Bytes, a: Artifact, content: Bytes, d: Disk, n: nat)
    requires Usable(a) && |content| == a.size > 1 && d.final.None? && Offset(d) == 0
    ensures FaithfulThroughout(hash, a, content, d, Cycles(content, n))
    ensures ProductiveCount(hash, a, d, Cycles(content, n)) == n
    ensures Attempts(hash, a, d, Cycles(content, n)).final.None?
    decreases n
  {
    if n > 0 {
      CycleFirst(hash, a, content, d, Cycles(content, n - 1));
      RestartsNeedNotComplete(hash, a, content, Disk(None, Some([])), n - 1);
    }
  }

  /* ---------- when retrying cannot help ---------- */

  /** A partial file of the right size and the wrong digest is neither completed nor removed. */
  predicate Stuck(hash: Bytes -> Bytes, a: Artifact, d: Disk) {
    d.partial.Some? && |d.partial.value| == a.size && !Verifies(hash, a, d.partial.value)
  }

  lemma {:induction false} StuckForever(hash: Bytes -> Bytes, a: Artifact, d: Disk, ws: seq<World>)
    requires d.final.None? && Stuck(hash, a, d)
    ensures Attempts(hash, a, d, ws) == d
    decreases |ws|
  {
    if ws != [] {
      StuckForever(hash, a, d, ws[1..]);
    }
  }

  lemma FreshFetch(hash: Bytes -> Bytes, a: Artifact, content: Bytes, d: Disk)
    requires |content| == a.size && Verifies(hash, a, content) && Offset(d) < a.size
    ensures Fetch(hash, a, d, World(Some(Response(200, content, false)), a.size, None))
            == (Disk(Some(content), None), true)
  {
    assert Take(Take(content, a.size + 1), a.size) == content && [] + content == content;
  }

  lemma AttemptIsFetch(hash: Bytes -> Bytes, a: Artifact, d: Disk, w: World)
    requires Usable(a) && d.final.None? && w.fault.None? && Offset(d) != a.size
    ensures Attempt(hash, a, d, w) == Fetch(hash, a, if Offset(d) > a.size then d.(partial := None) else d, w)
  {
  }

  lemma FreshCopyCompletes(hash: Bytes -> Bytes, a: Artifact, content: Bytes, d: Disk)
    requires Usable(a) && Complete(hash, a, content) && d.final.None? && !Stuck(hash, a, d)
    ensures Attempt(hash, a, d, World(Some(Response(200, content, false)), a.size, None)).1
  {
    if Offset(d) != a.size {
      EqualFoldIff(hash(content), a.sha256);
      AttemptIsFetch(hash, a, d, World(Some(Response(200, content, false)), a.size, None));
      FreshFetch(hash, a, content, if Offset(d) > a.size then d.(partial := None) else d);
    }
  }

  /** Some attempt can still succeed. */
  ghost predicate CanSucceed(hash: Bytes -> Bytes, a: Artifact, d: Disk) {
    exists ws: seq<World>, w :: Attempt(hash, a, Attempts(hash, a, d, ws), w).1
  }

  /** What blocks every attempt: a directory, a final file that is not the artifact, left for instance from
      another revision under the same name, or a full-sized partial file with the wrong digest. */
  predicate Blocked(hash: Bytes -> Bytes, a: Artifact, d: Disk) {
    || !NamesFile(a.filename)
    || if d.final.Some? then |d.final.value| != a.size || !Verifies(hash, a, d.final.value) else Stuck(hash, a, d)
  }

  lemma {:induction false} Directory(hash: Bytes -> Bytes, a: Artifact, d: Disk, ws: seq<World>)
    requires !NamesFile(a.filename)
    ensures Attempts(hash, a, d, ws) == d
    decreases |ws|
  {
    if ws != [] {
      Directory(hash, a, d, ws[1..]);
    }
  }

  lemma BlockedForever(hash: Bytes -> Bytes, a: Artifact, d: Disk, ws: seq<World>, w: World)
    requires Blocked(hash, a, d)
    ensures Attempts(hash, a, d, ws) == d && !Attempt(hash, a, d, w).1
  {
    if !NamesFile(a.filename) {
      Directory(hash, a, d, ws);
    } else if d.final.Some? {
      Untouched(hash, a, d, ws);
    } else {
      StuckForever(hash, a, d, ws);
    }
  }

  /** Some attempt after some further history succeeds if and only if neither file is in the way. */
  lemma CanSucceedIff(hash: Bytes -> Bytes, a: Artifact, content: Bytes, d: Disk)
    requires Accepts(a) && Complete(hash, a, content)
    ensures CanSucceed(hash, a, d) <==> !Blocked(hash, a, d)
  {
    if Blocked(hash, a, d) {
      forall ws: seq<World>, w
        ensures !Attempt(hash, a, Attempts(hash, a, d, ws), w).1
      {
        BlockedForever(hash, a, d, ws, w);
      }
    } else {
      var w := World(Some(Response(200, content, false)), a.size, None);
      if d.final.None? {
        FreshCopyCompletes(hash, a, content, d);
      }
      var none: seq<World> := [];
      assert Attempts(hash, a, d, none) == d && Attempt(hash, a, Attempts(hash, a, d, none), w).1;
    }
  }

  /** The failing case is met: as many wrong bytes as the artifact has are enough. */
  lemma WrongContentSticks(hash: Bytes -> Bytes, a: Artifact, wrong: Bytes)
    requires Usable(a) && |wrong| == a.size && !Verifies(hash, a, wrong)
    ensures var w := World(Some(Response(200, wrong, false)), a.size, None);
            Stuck(hash, a, Attempt(hash, a, Disk(None, None), w).0)
  {
    assert Take(Take(wrong, a.size + 1), a.size) == wrong && [] + wrong == wrong;
  }

  /** So is the other: after a successful download another artifact under the same file name, for instance
      a new revision, cannot be downloaded while the file is there. */
  lemma OtherArtifactBlocks(hash: Bytes -> Bytes, a: Artifact, b: Artifact, content: Bytes)
    requires Usable(a) && Complete(hash, a, content)
    requires Accepts(b) && b.filename == a.filename && !Complete(hash, b, content)
    ensures var (d, ok) := Attempt(hash, a, Disk(None, None), World(Some(Response(200, content, false)), a.size, None));
            ok && d.final == Some(content) && Blocked(hash, b, d)
  {
    EqualFoldIff(hash(content), a.sha256);
    EqualFoldIff(hash(content), b.sha256);
    FreshFetch(hash, a, content, Disk(None, None));
  }

  /** A server that follows the standard and sends the right content never leads there. */
  lemma FaithfulNeverStuck(hash: Bytes -> Bytes, a: Artifact, content: Bytes, ws: seq<World>)
    requires Accepts(a) && Complete(hash, a, content) && FaithfulThroughout(hash, a, content, Disk(None, None), ws)
    ensures !Stuck(hash, a, Attempts(hash, a, Disk(None, None), ws))
  {
    PartialIsPrefix(hash, a, content, Disk(None, None), ws);
    EqualFoldIff(hash(content), a.sha256);
    var d := Attempts(hash, a, Disk(None, None), ws);
    if d.partial.Some? && |d.partial.value| == a.size {
      assert d.partial.value == content;
    }
  }

  /* ---------- the code ---------- */

  type int64 = x: int | -0x8000_0000_0000_0000 <= x < 0x8000_0000_0000_0000

  /** io.LimitReader over the body of a response. */
  class LimitedBody {
    const response: Response
    var position: nat
    var left: int64

    constructor (response: Response, limit: int64)
      requires limit >= 0
      ensures this.response == response && position == 0 && left == limit
    {
      this.response, position, left := response, 0, limit;
    }

    predicate Valid() reads this { position <= |response.body| && left >= 0 }

    /** Some of what is left; `failed` is the body's read error. */
    method Read(size: nat) returns (data: Bytes, eof: bool, failed: bool)
      requires Valid() && size > 0
      modifies this
      ensures Valid() && old(position) + |data| == position && left == old(left) - |data|
      ensures data == response.body[old(position)..position] && |data| <= size
      ensures data != [] ==> !eof && !failed
      ensures data == [] ==> eof == !failed && (failed <==> response.broken && left > 0)
      ensures data == [] ==> left == 0 || position == |response.body|
    {
      var available := |response.body| - position;
      if left == 0 || available == 0 {
        failed := response.broken && left > 0;
        return [], !failed, failed;
      }
      var most := if left < available then left else available;
      var n: nat := *;
      n := if 0 < n <= size && n <= most then n else 1;
      data, eof, failed := response.body[position..position + n], false, false;
      position, left := position + n, left - n;
    }
  }

  /** What lands of a longer prefix is what landed of the shorter one and some of the piece between. */
  lemma TakeMore(b: Bytes, before: nat, position: nat, room: nat)
    requires before <= position <= |b| && before <= room
    ensures Take(b[..position], room) == Take(b[..before], room) + Take(b[before..position], room - before)
  {
    assert b[..position] == b[..before] + b[before..position];
  }

  lemma TakeAll(b: Bytes, position: nat, room: nat)
    requires position <= |b| && (room < position || position == |b|)
    ensures Take(b[..position], room) == Take(b, room)
  {
    assert position == |b| ==> b[..position] == b;
  }

  class Downloader {
    const hash: Bytes -> Bytes
    var final: Option<Bytes>
    var partial: Option<Bytes>

    function OnDisk(): Disk reads this { Disk(final, partial) }

    constructor (hash: Bytes -> Bytes)
      ensures this.hash == hash && OnDisk() == Disk(None, None)
    {
      this.hash := hash;
      final, partial := None, None;
    }

    method Download(a: Artifact, w: World) returns (ok: bool)
      modifies this
      ensures (OnDisk(), ok) == Attempt(hash, a, old(OnDisk()), w)
    {
      if !Accepts(a) || w.fault == Some(MakeDirectory) || w.fault == Some(StatFinal) {
        return false;
      }
      if !NamesFile(a.filename) {
        return false;   // a directory is there: its size differs or reading it fails
      }
      if final.Some? {
        if |final.value| == a.size && w.fault != Some(ReadBack) && Verifies(hash, a, final.value) {
          return true;
        }
        return false;
      }
      var offset := PartialSize(a.size, w);
      if offset.None? {
        return false;
      }
      if offset.value == a.size {
        ok := Promote(a, w);
        return;
      }
      if w.response.None? || (w.response.value.status != 200 && w.response.value.status != 206)
         || w.fault == Some(OpenPartial) {
        return false;
      }
      ok := Transfer(a, offset.value, w);
    }

    method PartialSize(expected: uint64, w: World) returns (offset: Option<uint64>)
      modifies `partial
      ensures offset.None? ==> partial == old(partial)
      ensures offset.None? <==>
              w.fault == Some(StatPartial) || (Offset(old(OnDisk())) > expected && w.fault == Some(RemovePartial))
      ensures offset.Some? ==> offset.value == Offset(OnDisk()) <= expected
      ensures offset.Some? ==> partial == if Offset(old(OnDisk())) > expected then None else old(partial)
    {
      if w.fault == Some(StatPartial) {
        return None;
      }
      if partial.None? {
        return Some(0);
      }
      if |partial.value| > expected {
        if w.fault == Some(RemovePartial) {
          return None;
        }
        partial := None;
        return Some(0);
      }
      return Some(|partial.value|);
    }

    /** os.OpenFile: an answer of 200 starts the partial file afresh, 206 appends to it. */
    method Open(found: uint64, status: int) returns (offset: uint64)
      requires found == Offset(OnDisk()) && (status == 200 || status == 206)
      modifies `partial
      ensures partial == Some(Base(old(OnDisk()), status)) && offset == |partial.value| <= found
    {
      offset := if found > 0 && status == 200 then 0 else found;
      if offset == 0 {
        partial := Some([]);
      }
    }

    /** From os.OpenFile to the end. The limit is an int64 and the progress counter a uint64: neither overflows. */
    method Transfer(a: Artifact, found: uint64, w: World) returns (ok: bool)
      requires Accepts(a) && w.response.Some? && (w.response.value.status == 200 || w.response.value.status == 206)
      requires w.fault != Some(OpenPartial) && final.None? && found == Offset(OnDisk()) < a.size
      modifies this
      ensures (OnDisk(), ok) == Fetch(hash, a, old(OnDisk()), w)
    {
      var offset := Open(found, w.response.value.status);
      var remaining: uint64 := a.size - offset;
      var limit: int64 := remaining;
      limit := limit + 1;
      var body := new LimitedBody(w.response.value, limit);
      var copied := Copy(body, offset, w.landed);
      if !copied || w.fault == Some(Sync) || |partial.value| != a.size {
        return false;
      }
      ok := Promote(a, w);
    }

    /** What a copy of up to `limit` bytes has done so far: what was read has landed as far as there was room. */
    predicate Copying(body: LimitedBody, start: Bytes, limit: nat, room: nat, counted: int)
      reads this, body
    {
      var incoming := Take(body.response.body, limit);
      && body.Valid() && body.left == limit - body.position && body.position <= |incoming|
      && partial == Some(start + Take(incoming[..body.position], room))
      && counted == if room < body.position then room else body.position
    }

    /** io.Copy through the progress writer; at most `room` bytes can be written. */
    method Copy(body: LimitedBody, offset: uint64, room: nat) returns (ok: bool)
      requires body.Valid() && body.position == 0 && partial.Some? && |partial.value| == offset <= MAX_SIZE
      modifies `partial, body
      ensures var incoming := Take(body.response.body, old(body.left));
              && partial == Some(old(partial).value + Take(incoming, room))
              && (ok <==> room >= |incoming| && !(body.response.broken && |body.response.body| < old(body.left)))
    {
      var downloaded: uint64 := offset;
      ghost var start, limit := partial.value, body.left;
      ghost var incoming := Take(body.response.body, limit);
      assert start + [] == start && incoming[..0] == [];
      var done := false;
      ok := true;
      while !done
        invariant Copying(body, start, limit, room, downloaded - offset)
        invariant !done ==> room >= body.position
        invariant done ==> room < body.position || body.position == |incoming|
        invariant done ==> (ok <==> room >= |incoming| && !(body.response.broken && |body.response.body| < limit))
        decreases !done, body.left
      {
        done, ok, downloaded := CopyTurn(body, start, limit, offset, downloaded, room);
      }
      TakeAll(incoming, body.position, room);
    }

    /** One read and one write. */
    method CopyTurn(body: LimitedBody, ghost start: Bytes, ghost limit: int64, offset: uint64, downloaded: uint64,
        room: nat)
      returns (done: bool, ok: bool, counter: uint64)
      requires limit >= 0 && Copying(body, start, limit, room, downloaded - offset)
      requires room >= body.position && offset <= MAX_SIZE
      modifies `partial, body
      ensures Copying(body, start, limit, room, counter - offset)
      ensures !done ==> room >= body.position && body.left < old(body.left)
      ensures done ==> room < body.position || body.position == |Take(body.response.body, limit)|
      ensures done ==>
                (ok <==> room >= |Take(body.response.body, limit)|
                         && !(body.response.broken && |body.response.body| < limit))
    {
      ghost var incoming, before := Take(body.response.body, limit), body.position;
      var data, eof, failed := body.Read(32768);
      if data == [] {
        return true, eof, downloaded;
      }
      TakeMore(incoming, before, body.position, room);
      var written := Take(data, room - (downloaded - offset));
      assert data == incoming[before..body.position];
      assert start + Take(incoming[..before], room) + written == start + (Take(incoming[..before], room) + written);
      partial := Some(partial.value + written);
      counter := downloaded + |written|;
      done, ok := |written| < |data|, |written| == |data|;
    }

    /** verifyFile, then os.Rename. */
    method Promote(a: Artifact, w: World) returns (ok: bool)
      requires partial.Some? && final.None?
      modifies this
      ensures (OnDisk(), ok) == Finish(hash, a, old(OnDisk()), w)
    {
      if w.fault == Some(ReadBack) || !Verifies(hash, a, partial.value) {
        return false;
      }
      if w.fault == Some(Rename) {
        return false;
      }
      final, partial := partial, None;
      ok := true;
    }
  }
}
