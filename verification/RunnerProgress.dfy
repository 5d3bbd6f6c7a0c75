/**
 What a request gets when the world is kind: the steps that are called for lead from a loaded, idle process to
 the whole of its text and back to a loaded, idle process; and a cancelled run that is answered in time keeps
 its session too.
 */
module RunnerProgress {
  import opened Common
  import opened Bytes
  import opened RunnerFrames
  import opened RunnerMachine
  import opened RunnerSafety
  import opened RunnerHonest

  /** Steps of a system, given as a partial function, that lead from s to t. */
  predicate Path<S(==), A>(step: (S, A) -> Option<S>, s: S, steps: seq<A>, t: S)
    decreases |steps|
  {
    if steps == [] then s == t
    else step(s, steps[0]).Some? && Path(step, step(s, steps[0]).value, steps[1..], t)
  }

  lemma {:induction false} PathOn<S, A>(step: (S, A) -> Option<S>, s: S, first: seq<A>, t: S, second: seq<A>, u: S)
    requires Path(step, s, first, t) && Path(step, t, second, u)
    ensures Path(step, s, first + second, u)
    decreases |first|
  {
    if first == [] {
      assert first + second == second;
    } else {
      PathOn(step, step(s, first[0]).value, first[1..], t, second, u);
      assert (first + second)[1..] == first[1..] + second;
    }
  }

  /** A step that is called for when the world is kind. */
  function Kind(c: Config): (State, Action) -> Option<State> {
    (s: State, a: Action) => if HonestStep(c, s, a, true) then Apply(c, s, a) else None
  }

  /** With the world kind at every step, these steps are called for and lead from s to t. */
  predicate Goes(c: Config, s: State, steps: seq<Action>, t: State) { Path(Kind(c), s, steps, t) }

  lemma OneStep(c: Config, s: State, a: Action, t: State)
    requires HonestStep(c, s, a, true) && Apply(c, s, a) == Some(t)
    ensures Goes(c, s, [a], t)
  {
    assert Kind(c)(s, a) == Some(t);
    assert [a][1..] == [];
  }

  lemma Prepend(c: Config, s: State, a: Action, t: State, steps: seq<Action>, u: State)
    requires HonestStep(c, s, a, true) && Apply(c, s, a) == Some(t) && Goes(c, t, steps, u)
    ensures Goes(c, s, [a] + steps, u)
  {
    OneStep(c, s, a, t);
    PathOn(Kind(c), s, [a], t, steps, u);
  }

  lemma GoesOn(c: Config, s: State, first: seq<Action>, t: State, second: seq<Action>, u: State)
    requires Goes(c, s, first, t) && Goes(c, t, second, u)
    ensures Goes(c, s, first + second, u)
  {
    PathOn(Kind(c), s, first, t, second, u);
  }

  /* ---------- where a request may be ---------- */

  /** What stays the same from the first step of a run to the last. */
  predicate Same(s: State, t: State, id: nat, r: nat) {
    && id < |s.sessions| && |t.sessions| == |s.sessions| && r < |s.runs| && |t.runs| == |s.runs|
    && t.sessions[id].model == s.sessions[id].model && t.runs[r].model == s.runs[r].model
    && t.runs[r].stream == s.runs[r].stream
  }

  /** The process serves run r, which reads. */
  predicate Working(s: State, id: nat, r: nat) {
    && Attends(s, id, r) && s.lock == Reading(r)
    && s.sessions[id].process == Busy(r, s.runs[r].text) && s.sessions[id].stdin == [] && s.sessions[id].stdout == []
  }

  predicate Attends(s: State, id: nat, r: nat) {
    && s.current == Some(id) && id < |s.sessions| && r < |s.runs|
    && !s.runs[r].ctxDone && s.runs[r].state == Holding
    && !s.sessions[id].deaf && !s.sessions[id].closed
  }

  /** The process is idle and nothing is under way. */
  predicate Loaded(s: State, id: nat, model: string) {
    && s.current == Some(id) && id < |s.sessions| && s.lock == Free
    && s.sessions[id] == Session(model, false, [], [], false, Idle)
  }

  predicate Waiting(s: State, r: nat, model: string) {
    r < |s.runs| && s.runs[r] == Run(model, s.runs[r].stream, false, [], [], None, Called)
  }

  /* ---------- the beginning ---------- */

  function Beginning(id: nat, r: nat): seq<Action> {
    [BeginRun(r, false)] + ([SendStarted(true)] + ([WriteGenerate(true)] + [ProcessStep(id, TakeInput)]))
  }

  lemma TakesMutex(c: Config, s: State, id: nat, r: nat, model: string) returns (t: State)
    requires Loaded(s, id, model) && Waiting(s, r, model)
    ensures HonestStep(c, s, BeginRun(r, false), true) && Apply(c, s, BeginRun(r, false)) == Some(t)
    ensures Attends(t, id, r) && Same(s, t, id, r) && t.lock == Begun(r)
    ensures t.runs[r].events == [] && t.runs[r].text == [] && t.sessions == s.sessions
  {
    t := Apply(c, s, BeginRun(r, false)).value;
  }

  lemma SaysStarted(c: Config, s: State, id: nat, r: nat) returns (t: State)
    requires Attends(s, id, r) && s.lock == Begun(r)
    ensures HonestStep(c, s, SendStarted(true), true) && Apply(c, s, SendStarted(true)) == Some(t)
    ensures Attends(t, id, r) && Same(s, t, id, r) && t.lock == Sending(r)
    ensures t.runs[r] == s.runs[r].(events := s.runs[r].events + [Started(s.runs[r].model)]) && t.sessions == s.sessions
  {
    t := Apply(c, s, SendStarted(true)).value;
  }

  lemma WritesGenerate(c: Config, s: State, id: nat, r: nat) returns (t: State)
    requires Attends(s, id, r) && s.lock == Sending(r)
    ensures HonestStep(c, s, WriteGenerate(true), true) && Apply(c, s, WriteGenerate(true)) == Some(t)
    ensures Attends(t, id, r) && Same(s, t, id, r) && t.lock == Reading(r) && t.runs == s.runs
    ensures t.sessions[id] == s.sessions[id].(stdin := s.sessions[id].stdin + [Generate(r)])
  {
    t := Apply(c, s, WriteGenerate(true)).value;
  }

  lemma TakesGenerate(c: Config, s: State, id: nat, r: nat) returns (t: State)
    requires Attends(s, id, r) && s.sessions[id].stdin == [Generate(r)] && s.sessions[id].process == Idle
    ensures HonestStep(c, s, ProcessStep(id, TakeInput), true) && Apply(c, s, ProcessStep(id, TakeInput)) == Some(t)
    ensures Attends(t, id, r) && Same(s, t, id, r) && t.lock == s.lock && t.runs == s.runs
    ensures t.sessions[id] == s.sessions[id].(stdin := [], process := Busy(r, []))
  {
    t := Apply(c, s, ProcessStep(id, TakeInput)).value;
    assert [Generate(r)][1..] == [];
  }

  lemma Begins(c: Config, s: State, id: nat, r: nat, model: string) returns (t: State)
    requires Loaded(s, id, model) && Waiting(s, r, model)
    ensures Goes(c, s, Beginning(id, r), t) && Working(t, id, r) && Same(s, t, id, r)
    ensures t.runs[r].events == [Started(model)] && t.runs[r].text == []
  {
    var s1 := TakesMutex(c, s, id, r, model);
    var s2 := SaysStarted(c, s1, id, r);
    var s3 := WritesGenerate(c, s2, id, r);
    t := TakesGenerate(c, s3, id, r);
    OneStep(c, s3, ProcessStep(id, TakeInput), t);
    Prepend(c, s2, WriteGenerate(true), s3, [ProcessStep(id, TakeInput)], t);
    Prepend(c, s1, SendStarted(true), s2, [WriteGenerate(true)] + [ProcessStep(id, TakeInput)], t);
    Prepend(
      c, s, BeginRun(r, false), s1, [SendStarted(true)] + ([WriteGenerate(true)] + [ProcessStep(id, TakeInput)]), t);
  }

  /* ---------- the text ---------- */

  function ChunkSteps(id: nat, stream: bool, text: Bytes): seq<Action> {
    [ProcessStep(id, Produce(text))] + ([ReadFrame] + if stream then [SendDelta(true)] else [])
  }

  function DeltaIf(stream: bool, text: Bytes): seq<Event> { if stream then [Delta(text)] else [] }

  lemma ProducesChunk(c: Config, s: State, id: nat, r: nat, text: Bytes) returns (t: State)
    requires Working(s, id, r) && ValidFrame(Chunk(text))
    ensures HonestStep(c, s, ProcessStep(id, Produce(text)), true)
    ensures Apply(c, s, ProcessStep(id, Produce(text))) == Some(t)
    ensures Attends(t, id, r) && Same(s, t, id, r) && t.lock == s.lock && t.runs == s.runs
    ensures var total := s.runs[r].text + text;
            t.sessions[id] == s.sessions[id].(process := Busy(r, total), stdout := [Item(Some(r), Chunk(text), total)])
  {
    t := Apply(c, s, ProcessStep(id, Produce(text))).value;
  }

  lemma ReadsChunk(c: Config, s: State, id: nat, r: nat, text: Bytes, total: Bytes) returns (t: State)
    requires Attends(s, id, r) && s.lock == Reading(r) && s.sessions[id].stdout == [Item(Some(r), Chunk(text), total)]
    ensures HonestStep(c, s, ReadFrame, true) && Apply(c, s, ReadFrame) == Some(t)
    ensures Attends(t, id, r) && Same(s, t, id, r) && t.sessions[id] == s.sessions[id].(stdout := [])
    ensures t.runs[r] == s.runs[r].(text := s.runs[r].text + text)
    ensures t.lock == if s.runs[r].stream then Delivering(r, text) else Reading(r)
  {
    t := Apply(c, s, ReadFrame).value;
    assert s.sessions[id].stdout[1..] == [];
  }

  lemma DeliversDelta(c: Config, s: State, id: nat, r: nat, text: Bytes) returns (t: State)
    requires Attends(s, id, r) && s.lock == Delivering(r, text)
    ensures HonestStep(c, s, SendDelta(true), true) && Apply(c, s, SendDelta(true)) == Some(t)
    ensures Attends(t, id, r) && Same(s, t, id, r) && t.sessions == s.sessions && t.lock == Reading(r)
    ensures t.runs[r] == s.runs[r].(events := s.runs[r].events + [Delta(text)])
  {
    t := Apply(c, s, SendDelta(true)).value;
  }

  lemma ChunkArrives(c: Config, s: State, id: nat, r: nat, text: Bytes) returns (t: State)
    requires Working(s, id, r) && ValidFrame(Chunk(text))
    ensures Goes(c, s, ChunkSteps(id, s.runs[r].stream, text), t) && Working(t, id, r) && Same(s, t, id, r)
    ensures t.runs[r].text == s.runs[r].text + text
    ensures t.runs[r].events == s.runs[r].events + DeltaIf(s.runs[r].stream, text)
  {
    var s1 := ProducesChunk(c, s, id, r, text);
    var s2 := ReadsChunk(c, s1, id, r, text, s.runs[r].text + text);
    if s.runs[r].stream {
      t := DeliversDelta(c, s2, id, r, text);
      OneStep(c, s2, SendDelta(true), t);
      Prepend(c, s1, ReadFrame, s2, [SendDelta(true)], t);
    } else {
      t := s2;
      OneStep(c, s1, ReadFrame, s2);
      assert [ReadFrame] + [] == [ReadFrame];
    }
    Prepend(
      c, s, ProcessStep(id, Produce(text)), s1, [ReadFrame] + if s.runs[r].stream then [SendDelta(true)] else [], t);
  }

  function AllChunkSteps(id: nat, stream: bool, texts: seq<Bytes>): seq<Action> {
    if texts == [] then [] else ChunkSteps(id, stream, texts[0]) + AllChunkSteps(id, stream, texts[1..])
  }

  function Joined(texts: seq<Bytes>): Bytes { if texts == [] then [] else texts[0] + Joined(texts[1..]) }

  function Deltas(texts: seq<Bytes>): seq<Event> { if texts == [] then [] else [Delta(texts[0])] + Deltas(texts[1..]) }

  lemma {:induction false} ChunksArrive(c: Config, s: State, id: nat, r: nat, texts: seq<Bytes>) returns (t: State)
    requires Working(s, id, r) && forall i :: 0 <= i < |texts| ==> ValidFrame(Chunk(texts[i]))
    ensures Goes(c, s, AllChunkSteps(id, s.runs[r].stream, texts), t) && Working(t, id, r) && Same(s, t, id, r)
    ensures t.runs[r].text == s.runs[r].text + Joined(texts)
    ensures t.runs[r].events == s.runs[r].events + if s.runs[r].stream then Deltas(texts) else []
    decreases |texts|
  {
    if texts == [] {
      t := s;
    } else {
      var next := ChunkArrives(c, s, id, r, texts[0]);
      t := ChunksArrive(c, next, id, r, texts[1..]);
      var stream := s.runs[r].stream;
      GoesOn(c, s, ChunkSteps(id, stream, texts[0]), next, AllChunkSteps(id, stream, texts[1..]), t);
      Regroup(s.runs[r].text, texts[0], Joined(texts[1..]));
      Regroup(s.runs[r].events, [Delta(texts[0])], Deltas(texts[1..]));
    }
  }

  lemma Regroup<T>(a: seq<T>, b: seq<T>, c: seq<T>)
    ensures a + b + c == a + (b + c) && a + [] + [] == a
  {
  }

  /* ---------- the end ---------- */

  /** What the client is told last, given the frame that ends the run. */
  function LastEvent(f: Frame, text: Bytes): Event {
    if f.Error? then ErrorEvent else if f.Completed? && f.reason == 3 then CancelledEvent else CompletedEvent(text)
  }

  /** The codes after which the process cannot be trusted. */
  const FATAL: set<Bytes> :=
    {Ascii("malformed_frame"), Ascii("frame_too_large"), Ascii("decode_failed"),
     Ascii("detokenize_failed"), Ascii("invalid_backend_utf8"), Ascii("not_configured")}

  lemma FatalCodes(code: Bytes)
    ensures IsFatal(code) <==> code in FATAL
  {
  }

  /** The session after the run: kept and idle but for a fatal error. */
  predicate KeptAfter(s: State, id: nat, f: Frame) {
    && id < |s.sessions|
    && if f.Error? && f.code in FATAL then s.current == None && s.sessions[id].closed
       else s.current == Some(id) && s.sessions[id] == Session(s.sessions[id].model, false, [], [], false, Idle)
  }

  function Ending(id: nat, f: Frame): seq<Action> { [ProcessStep(id, Finish(f))] + ([ReadFrame] + [SendFinal(true)]) }

  lemma Finishes(c: Config, s: State, id: nat, r: nat, f: Frame) returns (t: State)
    requires Attends(s, id, r) && s.sessions[id].process.Busy? && s.sessions[id].process.run == r
    requires (f.Completed? || f.Error?) && ValidFrame(f) && s.sessions[id].stdout == []
    ensures HonestStep(c, s, ProcessStep(id, Finish(f)), true) && Apply(c, s, ProcessStep(id, Finish(f))) == Some(t)
    ensures Attends(t, id, r) && Same(s, t, id, r) && t.lock == s.lock && t.runs == s.runs
    ensures var done := Item(Some(r), f, s.sessions[id].process.produced);
            t.sessions[id] == s.sessions[id].(process := Idle, stdout := [done])
  {
    t := Apply(c, s, ProcessStep(id, Finish(f))).value;
  }

  lemma ReadsEnd(c: Config, s: State, id: nat, r: nat, f: Frame, total: Bytes) returns (t: State)
    requires Attends(s, id, r) && s.lock == Reading(r) && (f.Completed? || f.Error?)
    requires s.sessions[id] == Session(s.sessions[id].model, false, [], [Item(Some(r), f, total)], false, Idle)
    ensures HonestStep(c, s, ReadFrame, true) && Apply(c, s, ReadFrame) == Some(t)
    ensures t.lock == Reporting(r, LastEvent(f, s.runs[r].text)) && KeptAfter(t, id, f) && Same(s, t, id, r)
    ensures t.runs[r] == s.runs[r].(generated := t.runs[r].generated)
  {
    t := Apply(c, s, ReadFrame).value;
    assert s.sessions[id].stdout[1..] == [];
    if f.Error? {
      FatalCodes(f.code);
    }
  }

  lemma Reports(c: Config, s: State, id: nat, r: nat) returns (t: State)
    requires s.lock.Reporting? && s.lock.run == r < |s.runs| && !s.runs[r].ctxDone && id < |s.sessions|
    ensures HonestStep(c, s, SendFinal(true), true) && Apply(c, s, SendFinal(true)) == Some(t)
    ensures t.lock == Free && t.sessions == s.sessions && t.current == s.current && Same(s, t, id, r)
    ensures t.runs[r].state == Over && t.runs[r].events == s.runs[r].events + [s.lock.final]
  {
    t := Apply(c, s, SendFinal(true)).value;
  }

  lemma RunEnds(c: Config, s: State, id: nat, r: nat, f: Frame) returns (t: State)
    requires Working(s, id, r) && (f.Completed? || f.Error?) && ValidFrame(f)
    ensures Goes(c, s, Ending(id, f), t) && t.lock == Free && KeptAfter(t, id, f) && Same(s, t, id, r)
    ensures t.runs[r].state == Over && t.runs[r].events == s.runs[r].events + [LastEvent(f, s.runs[r].text)]
  {
    var s1 := Finishes(c, s, id, r, f);
    var s2 := ReadsEnd(c, s1, id, r, f, s.runs[r].text);
    t := Reports(c, s2, id, r);
    OneStep(c, s2, SendFinal(true), t);
    Prepend(c, s1, ReadFrame, s2, [SendFinal(true)], t);
    Prepend(c, s, ProcessStep(id, Finish(f)), s1, [ReadFrame] + [SendFinal(true)], t);
  }

  /** A kind world: the request for a loaded model gets `started`, all the text the process produces, as
      deltas if it wants them and in `completed`, or the error the process reports; and unless that is fatal
      the model stays loaded. */
  lemma UndisturbedRun(
    c: Config, s: State, id: nat, r: nat, model: string, texts: seq<Bytes>, f: Frame) returns (t: State)
    requires Loaded(s, id, model) && Waiting(s, r, model) && (f.Completed? || f.Error?) && ValidFrame(f)
    requires forall i :: 0 <= i < |texts| ==> ValidFrame(Chunk(texts[i]))
    ensures Goes(c, s, Beginning(id, r) + (AllChunkSteps(id, s.runs[r].stream, texts) + Ending(id, f)), t)
    ensures t.lock == Free && KeptAfter(t, id, f) && Same(s, t, id, r) && t.runs[r].state == Over
    ensures t.runs[r].events
         == [Started(model)] + (if s.runs[r].stream then Deltas(texts) else []) + [LastEvent(f, Joined(texts))]
  {
    var s1 := Begins(c, s, id, r, model);
    var s2 := ChunksArrive(c, s1, id, r, texts);
    t := RunEnds(c, s2, id, r, f);
    assert [] + Joined(texts) == Joined(texts);
    GoesOn(c, s1, AllChunkSteps(id, s.runs[r].stream, texts), s2, Ending(id, f), t);
    GoesOn(c, s, Beginning(id, r), s1, AllChunkSteps(id, s.runs[r].stream, texts) + Ending(id, f), t);
  }

  /* ---------- a start ---------- */

  lemma Spawns(c: Config, s: State, model: string) returns (t: State)
    requires s.lock == Free && s.current == None
    ensures HonestStep(c, s, Probe(model, true), true) && Apply(c, s, Probe(model, true)) == Some(t)
    ensures t.lock == Starting(|s.sessions|, ForProbe) && |t.sessions| == |s.sessions| + 1 && t.current == None
    ensures t.sessions[|s.sessions|] == Session(model, false, [], [], false, Booting)
  {
    t := Apply(c, s, Probe(model, true)).value;
  }

  lemma Boots(c: Config, s: State, id: nat) returns (t: State)
    requires id < |s.sessions| && s.sessions[id].process == Booting
    requires s.sessions[id].stdout == [] && !s.sessions[id].deaf
    ensures HonestStep(c, s, ProcessStep(id, Boot), true) && Apply(c, s, ProcessStep(id, Boot)) == Some(t)
    ensures t.lock == s.lock && t.current == s.current && |t.sessions| == |s.sessions|
    ensures t.sessions[id] == s.sessions[id].(process := Idle, stdout := [Item(None, Ready, [])])
  {
    t := Apply(c, s, ProcessStep(id, Boot)).value;
  }

  lemma SeesReady(c: Config, s: State, id: nat, model: string) returns (t: State)
    requires s.lock == Starting(id, ForProbe) && id < |s.sessions|
    requires s.sessions[id] == Session(model, false, [], [Item(None, Ready, [])], false, Idle)
    ensures HonestStep(c, s, AwaitReady, true) && Apply(c, s, AwaitReady) == Some(t) && Loaded(t, id, model)
  {
    t := Apply(c, s, AwaitReady).value;
    assert s.sessions[id].stdout[1..] == [];
  }

  /** A kind start: the process is started, says Ready and is there for whoever wants it. */
  lemma UndisturbedProbe(c: Config, s: State, model: string) returns (t: State)
    requires s.lock == Free && s.current == None
    ensures Goes(c, s, [Probe(model, true)] + ([ProcessStep(|s.sessions|, Boot)] + [AwaitReady]), t)
    ensures Loaded(t, |s.sessions|, model)
  {
    var id := |s.sessions|;
    var s1 := Spawns(c, s, model);
    var s2 := Boots(c, s1, id);
    t := SeesReady(c, s2, id, model);
    OneStep(c, s2, AwaitReady, t);
    Prepend(c, s1, ProcessStep(id, Boot), s2, [AwaitReady], t);
    Prepend(c, s, Probe(model, true), s1, [ProcessStep(id, Boot)] + [AwaitReady], t);
  }

  /* ---------- a cancelled run ---------- */

  /** The context ends while the run reads; the process takes the Cancel, says so, and is idle again. */
  function CancelSteps(id: nat, r: nat, f: Frame): seq<Action> {
    [Expire(r)] + ([ReadExpired] + ([WriteCancel(true)]
      + ([ProcessStep(id, TakeInput)] + ([ProcessStep(id, Finish(f))] + [DrainFrame]))))
  }

  /** The holder gives up run r but not its session. */
  predicate Abandons(s: State, id: nat, r: nat) {
    && s.current == Some(id) && id < |s.sessions| && r < |s.runs| && s.runs[r].ctxDone
    && s.sessions[id].stdout == [] && !s.sessions[id].deaf && !s.sessions[id].closed
    && s.sessions[id].process.Busy? && s.sessions[id].process.run == r
  }

  lemma GivesUp(c: Config, s: State, id: nat, r: nat) returns (t: State, u: State)
    requires Working(s, id, r)
    ensures HonestStep(c, s, Expire(r), true) && Apply(c, s, Expire(r)) == Some(t)
    ensures HonestStep(c, t, ReadExpired, true) && Apply(c, t, ReadExpired) == Some(u)
    ensures Abandons(u, id, r) && u.lock == Aborting(r, true) && u.sessions == s.sessions && Same(s, u, id, r)
    ensures u.runs[r].events == s.runs[r].events
  {
    t := Apply(c, s, Expire(r)).value;
    u := Apply(c, t, ReadExpired).value;
  }

  lemma CancelIsTaken(c: Config, s: State, id: nat, r: nat) returns (t: State, u: State)
    requires Abandons(s, id, r) && s.lock == Aborting(r, true) && s.sessions[id].stdin == []
    ensures HonestStep(c, s, WriteCancel(true), true) && Apply(c, s, WriteCancel(true)) == Some(t)
    ensures HonestStep(c, t, ProcessStep(id, TakeInput), true) && Apply(c, t, ProcessStep(id, TakeInput)) == Some(u)
    ensures Abandons(u, id, r) && u.lock == Draining(r, true) && u.sessions[id] == s.sessions[id] && u.runs == s.runs
    ensures Same(s, u, id, r)
  {
    t := Apply(c, s, WriteCancel(true)).value;
    assert t.sessions[id].stdin[1..] == [];
    u := Apply(c, t, ProcessStep(id, TakeInput)).value;
  }

  lemma CancelIsConfirmed(c: Config, s: State, id: nat, r: nat, f: Frame) returns (t: State, u: State)
    requires Abandons(s, id, r) && s.lock == Draining(r, true) && s.sessions[id].stdin == []
    requires f.Completed? && ValidFrame(f)
    ensures HonestStep(c, s, ProcessStep(id, Finish(f)), true) && Apply(c, s, ProcessStep(id, Finish(f))) == Some(t)
    ensures HonestStep(c, t, DrainFrame, true) && Apply(c, t, DrainFrame) == Some(u)
    ensures u.lock == Free && KeptAfter(u, id, f) && Same(s, u, id, r)
    ensures u.runs[r].state == Over && u.runs[r].events == s.runs[r].events
  {
    t := Apply(c, s, ProcessStep(id, Finish(f))).value;
    assert t.sessions[id].stdout[1..] == [];
    u := Apply(c, t, DrainFrame).value;
  }

  /** A run that is cancelled keeps its session, when the runner answers in time, and reports no error. */
  lemma CancelledRunKeepsSession(c: Config, s: State, id: nat, r: nat, f: Frame) returns (t: State)
    requires Working(s, id, r) && f.Completed? && ValidFrame(f)
    ensures Goes(c, s, CancelSteps(id, r, f), t) && t.lock == Free && KeptAfter(t, id, f) && Same(s, t, id, r)
    ensures t.runs[r].state == Over && t.runs[r].events == s.runs[r].events
  {
    var s1, s2 := GivesUp(c, s, id, r);
    var s3, s4 := CancelIsTaken(c, s2, id, r);
    var s5: State;
    s5, t := CancelIsConfirmed(c, s4, id, r, f);
    var drain := [DrainFrame];
    var finish := [ProcessStep(id, Finish(f))] + drain;
    var take := [ProcessStep(id, TakeInput)] + finish;
    var write := [WriteCancel(true)] + take;
    OneStep(c, s5, DrainFrame, t);
    Prepend(c, s4, ProcessStep(id, Finish(f)), s5, drain, t);
    Prepend(c, s3, ProcessStep(id, TakeInput), s4, finish, t);
    Prepend(c, s2, WriteCancel(true), s3, take, t);
    Prepend(c, s1, ReadExpired, s2, write, t);
    Prepend(c, s, Expire(r), s1, [ReadExpired] + write, t);
  }
}
