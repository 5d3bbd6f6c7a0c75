/**
 Invariants of the link to one child process, and that every move of the process keeps them.
 */
module RunnerLink {
  import opened Common
  import opened Bytes
  import opened RunnerFrames
  import opened RunnerMachine

  predicate Owned(o: Output) { o.Item? && o.owner.Some? }

  predicate Terminal(o: Output) { Owned(o) && !o.frame.Chunk? }

  predicate BootError(o: Output) { o.Item? && !Owned(o) && o.frame.Error? }

  predicate IsReady(o: Output) { o.Item? && o.frame.Ready? }

  predicate Cancels(q: seq<Message>) { forall k :: 0 <= k < |q| ==> q[k].Cancel? }

  predicate CancelsOf(q: seq<Message>, r: nat) { forall k :: 0 <= k < |q| ==> q[k] == Cancel(r) }

  predicate NothingOwned(q: seq<Output>) { forall k :: 0 <= k < |q| ==> !Owned(q[k]) }

  predicate AllOwnedBy(q: seq<Output>, r: nat) { forall k :: 0 <= k < |q| && Owned(q[k]) ==> q[k].owner == Some(r) }

  predicate NoTerminal(q: seq<Output>) { forall k :: 0 <= k < |q| ==> !Terminal(q[k]) }

  predicate NothingAfterTerminal(q: seq<Output>) {
    forall j, k :: 0 <= j < k < |q| && Terminal(q[j]) ==> !Owned(q[k])
  }

  predicate NoBootError(q: seq<Output>) { forall k :: 0 <= k < |q| ==> !BootError(q[k]) }

  /* ---------- what holds of every process, closed or not ---------- */

  /** Every message behind a Generate is a Cancel of that very run, and while a run is being served
      every message is a Cancel of it. */
  predicate StdinOrdered(x: Session) {
    && (forall i, j :: 0 <= i < j < |x.stdin| && x.stdin[i].Generate? ==> x.stdin[j] == Cancel(x.stdin[i].run))
    && (x.process.Busy? ==> CancelsOf(x.stdin, x.process.run))
  }

  /** A frame about no run is Ready or an Error instead of Ready; a frame about a run never is Ready. */
  predicate FrameOk(o: Output) {
    o.Item? ==> ValidFrame(o.frame) && if o.owner.Some? then !o.frame.Ready? else o.frame.Ready? || o.frame.Error?
  }

  predicate StdoutOk(x: Session) {
    && (forall k :: 0 <= k < |x.stdout| ==> FrameOk(x.stdout[k]))
    && (forall j, k :: 0 <= j < |x.stdout| && 0 <= k < |x.stdout| && BootError(x.stdout[j]) ==> !IsReady(x.stdout[k]))
    && (forall j :: 0 <= j < |x.stdout| && BootError(x.stdout[j]) ==> x.process == Gone)
    && (x.process.Booting? ==> forall k :: 0 <= k < |x.stdout| ==> x.stdout[k].Broken?)
    && (x.deaf ==> x.stdout == [])
  }

  predicate LinkOk(x: Session) { StdinOrdered(x) && StdoutOk(x) }

  /* ---------- the three stages of a session's life ---------- */

  /** Nothing has been sent to the process and it has said nothing but perhaps Ready. */
  predicate Fresh(x: Session) {
    x.stdin == [] && NothingOwned(x.stdout) && !x.process.Busy? && !x.deaf
  }

  /** No Generate outstanding and no frame of any run in transit; old Cancels may still be on stdin. */
  predicate Quiet(x: Session) {
    && Cancels(x.stdin) && NothingOwned(x.stdout) && NoBootError(x.stdout)
    && (x.process == Idle || x.process == Gone) && !x.deaf
  }

  /** Run r's Generate has been written and its terminal frame not yet read. */
  predicate Engaged(x: Session, r: nat) {
    && NoBootError(x.stdout) && AllOwnedBy(x.stdout, r) && NothingAfterTerminal(x.stdout)
    && x.process != Booting
    && if x.process.Busy? then x.process.run == r && CancelsOf(x.stdin, r) && NoTerminal(x.stdout)
       else Waiting(x, r) || Served(x, r)
  }

  predicate Waiting(x: Session, r: nat) {
    && NothingOwned(x.stdout) && Generate(r) in x.stdin
    && (forall k :: 0 <= k < |x.stdin| && x.stdin[k].Generate? ==> x.stdin[k].run == r)
  }

  predicate Served(x: Session, r: nat) {
    && CancelsOf(x.stdin, r)
    && (x.process == Idle && !x.deaf ==> exists k :: 0 <= k < |x.stdout| && Terminal(x.stdout[k]))
  }

  lemma MoveKeepsStdin(x: Session, m: Move)
    requires StdinOrdered(x) && MoveSession(x, m).Some?
    ensures StdinOrdered(MoveSession(x, m).value)
  {
  }

  lemma EmitKeepsStdout(x: Session, o: Output)
    requires StdoutOk(x) && FrameOk(o)
    requires x.process == Booting ==> o.Broken?
    requires BootError(o) ==> x.process == Gone && forall k :: 0 <= k < |x.stdout| ==> x.stdout[k].Broken?
    requires IsReady(o) ==> x.process != Gone
    ensures StdoutOk(Emit(x, o))
  {
  }

  lemma MoveKeepsStdout(x: Session, m: Move)
    requires StdoutOk(x) && MoveSession(x, m).Some?
    ensures StdoutOk(MoveSession(x, m).value)
  {
    match m
    case Boot => EmitKeepsStdout(x.(process := Idle), Item(None, Ready, []));
    case FailBoot(code, message) => EmitKeepsStdout(x.(process := Gone), Item(None, Error(code, message), []));
    case TakeInput =>
    case Produce(text) =>
      var total := x.process.produced + text;
      EmitKeepsStdout(x.(process := Busy(x.process.run, total)), Item(Some(x.process.run), Chunk(text), total));
    case Finish(frame) => EmitKeepsStdout(x.(process := Idle), Item(Some(x.process.run), frame, x.process.produced));
    case RepeatReady => EmitKeepsStdout(x, Item(None, Ready, []));
    case Garble => EmitKeepsStdout(x, Broken);
    case Exit =>
    case Lose(kept) => LoseKeepsStdout(x, kept);
  }

  lemma LoseKeepsStdout(x: Session, kept: nat)
    requires StdoutOk(x) && MoveSession(x, Lose(kept)).Some?
    ensures StdoutOk(MoveSession(x, Lose(kept)).value)
  {
    var y := MoveSession(x, Lose(kept)).value;
    if !x.deaf {
      assert forall k :: 0 <= k < kept ==> y.stdout[k] == x.stdout[k];
    }
  }

  lemma MoveKeepsLink(x: Session, m: Move)
    requires LinkOk(x) && MoveSession(x, m).Some?
    ensures LinkOk(MoveSession(x, m).value)
  {
    MoveKeepsStdin(x, m);
    MoveKeepsStdout(x, m);
  }

  lemma MoveKeepsFresh(x: Session, m: Move)
    requires LinkOk(x) && Fresh(x) && MoveSession(x, m).Some?
    ensures Fresh(MoveSession(x, m).value)
  {
  }

  lemma MoveKeepsQuiet(x: Session, m: Move)
    requires LinkOk(x) && Quiet(x) && MoveSession(x, m).Some?
    ensures Quiet(MoveSession(x, m).value)
  {
  }

  lemma TakeKeepsEngaged(x: Session, r: nat)
    requires LinkOk(x) && Engaged(x, r) && MoveSession(x, TakeInput).Some?
    ensures Engaged(MoveSession(x, TakeInput).value, r)
  {
    var y := MoveSession(x, TakeInput).value;
    if !x.process.Busy? && Waiting(x, r) && x.stdin[0].Cancel? {
      assert Waiting(y, r);
    }
  }

  lemma FinishKeepsEngaged(x: Session, r: nat, f: Frame)
    requires LinkOk(x) && Engaged(x, r) && MoveSession(x, Finish(f)).Some?
    ensures Engaged(MoveSession(x, Finish(f)).value, r)
  {
    var y := MoveSession(x, Finish(f)).value;
    if !x.deaf {
      assert Terminal(y.stdout[|x.stdout|]);
    }
  }

  /** Anything that is not about a run can be put on stdout. */
  lemma StrayKeepsEngaged(x: Session, r: nat, o: Output)
    requires LinkOk(x) && Engaged(x, r) && !Owned(o) && !BootError(o)
    ensures Engaged(Emit(x, o), r)
  {
    var y := Emit(x, o);
    if x.process == Idle && Served(x, r) && !x.deaf {
      var k :| 0 <= k < |x.stdout| && Terminal(x.stdout[k]);
      assert y.stdout[k] == x.stdout[k];
    }
  }

  lemma ExitKeepsEngaged(x: Session, r: nat)
    requires LinkOk(x) && Engaged(x, r)
    ensures Engaged(x.(process := Gone), r)
  {
  }

  lemma LoseKeepsEngaged(x: Session, r: nat, kept: nat)
    requires LinkOk(x) && Engaged(x, r) && MoveSession(x, Lose(kept)).Some?
    ensures Engaged(MoveSession(x, Lose(kept)).value, r)
  {
    var y := MoveSession(x, Lose(kept)).value;
    assert forall k :: 0 <= k < |y.stdout| - 1 ==> y.stdout[k] == x.stdout[k];
    assert Waiting(x, r) ==> Waiting(y, r);
  }

  lemma MoveKeepsEngaged(x: Session, r: nat, m: Move)
    requires LinkOk(x) && Engaged(x, r) && MoveSession(x, m).Some?
    ensures Engaged(MoveSession(x, m).value, r)
  {
    match m
    case TakeInput => TakeKeepsEngaged(x, r);
    case Finish(frame) => FinishKeepsEngaged(x, r, frame);
    case RepeatReady => StrayKeepsEngaged(x, r, Item(None, Ready, []));
    case Garble => StrayKeepsEngaged(x, r, Broken);
    case Exit => ExitKeepsEngaged(x, r);
    case Lose(kept) => LoseKeepsEngaged(x, r, kept);
    case _ =>
  }

  /* ---------- text in transit ---------- */

  /** Starting from the text already read, each frame on the way carries the total it should. */
  predicate Chain(q: seq<Output>, text: Bytes) {
    q == [] ||
    if !Owned(q[0]) then Chain(q[1..], text)
    else if q[0].frame.Chunk? then q[0].total == text + q[0].frame.text && Chain(q[1..], q[0].total)
    else q[0].total == text && Chain(q[1..], text)
  }

  function ChainEnd(q: seq<Output>, text: Bytes): Bytes {
    if q == [] then text
    else if Owned(q[0]) && q[0].frame.Chunk? then ChainEnd(q[1..], q[0].total)
    else ChainEnd(q[1..], text)
  }

  lemma {:induction false} ChainAppend(q: seq<Output>, text: Bytes, o: Output)
    requires Chain(q, text) && Chain([o], ChainEnd(q, text))
    ensures Chain(q + [o], text) && ChainEnd(q + [o], text) == ChainEnd([o], ChainEnd(q, text))
  {
    if q != [] {
      assert (q + [o])[1..] == q[1..] + [o];
      ChainAppend(q[1..], if Owned(q[0]) && q[0].frame.Chunk? then q[0].total else text, o);
    } else {
      assert q + [o] == [o];
    }
  }

  lemma {:induction false} ChainEndUnowned(q: seq<Output>, text: Bytes)
    requires NothingOwned(q)
    ensures ChainEnd(q, text) == text
  {
    if q != [] {
      ChainEndUnowned(q[1..], text);
    }
  }

  /** The text read so far, followed by the chunks on the way, is what the process has produced. */
  predicate InStep(x: Session, r: nat, text: Bytes) {
    && !x.deaf
    && Chain(x.stdout, text)
    && (x.process.Busy? ==> ChainEnd(x.stdout, text) == x.process.produced)
    && (Generate(r) in x.stdin ==> text == [] && NothingOwned(x.stdout))
  }

  lemma {:induction false} ChainPrefix(q: seq<Output>, text: Bytes, n: nat)
    requires Chain(q, text) && n <= |q|
    ensures Chain(q[..n], text)
  {
    if n > 0 {
      assert q[..n][1..] == q[1..][..n - 1];
      ChainPrefix(q[1..], if Owned(q[0]) && q[0].frame.Chunk? then q[0].total else text, n - 1);
    }
  }

  lemma LoseKeepsInStep(x: Session, r: nat, text: Bytes, kept: nat)
    requires LinkOk(x) && InStep(x, r, text) && MoveSession(x, Lose(kept)).Some?
    ensures InStep(MoveSession(x, Lose(kept)).value, r, text)
  {
    var y := MoveSession(x, Lose(kept)).value;
    ChainPrefix(x.stdout, text, kept);
    assert [Broken][1..] == [];
    ChainAppend(x.stdout[..kept], text, Broken);
    assert forall k :: 0 <= k < kept ==> y.stdout[k] == x.stdout[k];
  }

  lemma MoveKeepsInStep(x: Session, r: nat, text: Bytes, m: Move)
    requires LinkOk(x) && Engaged(x, r) && InStep(x, r, text) && MoveSession(x, m).Some?
    ensures InStep(MoveSession(x, m).value, r, text)
  {
    var y := MoveSession(x, m).value;
    if m.TakeInput? {
      if x.process == Idle && x.stdin[0].Generate? {
        assert x.stdin[0] in x.stdin;
        ChainEndUnowned(x.stdout, text);
      }
    } else if m.Lose? {
      LoseKeepsInStep(x, r, text, m.kept);
    } else if |y.stdout| == |x.stdout| + 1 {
      var o := y.stdout[|x.stdout|];
      assert y.stdout == x.stdout + [o];
      assert [o][1..] == [];
      ChainAppend(x.stdout, text, o);
    }
  }

  /* ---------- reading and writing ---------- */

  lemma PopKeepsLink(x: Session)
    requires LinkOk(x) && x.stdout != []
    ensures LinkOk(Pop(x))
  {
  }

  /** Taking a frame that is not the terminal one keeps the run engaged; what was taken is its own. */
  lemma PopKeepsEngaged(x: Session, r: nat)
    requires LinkOk(x) && Engaged(x, r) && x.stdout != [] && !Terminal(x.stdout[0])
    ensures Engaged(Pop(x), r)
    ensures Owned(x.stdout[0]) ==> x.stdout[0].owner == Some(r)
  {
    var y := Pop(x);
    if x.process == Idle && Served(x, r) && !y.deaf {
      var k :| 0 <= k < |x.stdout| && Terminal(x.stdout[k]);
      assert y.stdout[k - 1] == x.stdout[k];
    }
  }

  /** After the terminal frame the process is idle or gone and nothing of the run is left. */
  lemma PopTerminal(x: Session, r: nat)
    requires LinkOk(x) && Engaged(x, r) && x.stdout != [] && Terminal(x.stdout[0])
    ensures Quiet(Pop(x)) && x.stdout[0].owner == Some(r)
  {
  }

  lemma WriteGenerateEngages(x: Session, r: nat)
    requires LinkOk(x) && Quiet(x)
    ensures var y := x.(stdin := x.stdin + [Generate(r)]); LinkOk(y) && Engaged(y, r) && InStep(y, r, [])
  {
    var y := x.(stdin := x.stdin + [Generate(r)]);
    assert y.stdin[|x.stdin|] == Generate(r);
    UnownedChain(x.stdout, []);
    assert Waiting(y, r);
  }

  lemma {:induction false} UnownedChain(q: seq<Output>, text: Bytes)
    requires NothingOwned(q)
    ensures Chain(q, text)
  {
    if q != [] {
      UnownedChain(q[1..], text);
    }
  }

  lemma WriteCancelKeepsEngaged(x: Session, r: nat)
    requires LinkOk(x) && Engaged(x, r)
    ensures var y := x.(stdin := x.stdin + [Cancel(r)]); LinkOk(y) && Engaged(y, r)
  {
    var y := x.(stdin := x.stdin + [Cancel(r)]);
    if !x.process.Busy? && Waiting(x, r) {
      assert Waiting(y, r);
    }
  }
}
