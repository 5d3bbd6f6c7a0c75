/**
 The first half of the provider's Generate: the model and its fallbacks are probed in turn, each with the
 mutex held for the probe only, so that other requests may come between.
 */
module RunnerStart {
  import opened Common
  import opened Keys
  import opened Config
  import opened Registry
  import opened Fallback
  import M = RunnerMachine
  import H = RunnerHonest
  import P = RunnerProvider

  /** The names of a request stand for different models, as those of a resolved target do. */
  predicate DifferentModels(r: Registry, names: seq<string>) {
    forall i, j :: 0 <= i < j < |names| && names[i] in r.index && names[j] in r.index ==>
      r.index[names[i]] != r.index[names[j]]
  }

  /* ---------- what the probes found ---------- */

  /** Where in the history a probe begins and where it lets go of the mutex. */
  datatype Span = Span(start: nat, end: nat)

  /** What the provider is and what has happened: its configuration, the world's part, and the steps. */
  datatype Past = Past(c: M.Config, fate: nat -> bool, h: seq<M.Action>)

  /** The probe succeeded in circumstances in which it can, or failed in others. Afterwards the mutex is
      free and there is a session of model m, or none. */
  ghost predicate Found(past: Past, span: Span, m: string, up: bool) {
    && span.end <= |past.h|
    && var s := M.Execute(past.c, M.INITIAL, past.h[..span.end]);
       && s.Some? && s.value.lock == M.Free
       && (if up then s.value.current.Some? && s.value.current.value < |s.value.sessions|
                      && s.value.sessions[s.value.current.value].model == m
           else s.value.current == None)
       && (up <==> H.CanStart(past.c, past.fate, past.h, span.start, span.end, m))
  }

  /** One probe for each of the first |spans| names, one after the other. */
  ghost predicate ProbedInOrder(h: seq<M.Action>, r: Registry, names: seq<string>, spans: seq<Span>, from: nat) {
    && |spans| <= |names|
    && (forall i :: 0 <= i < |spans| ==>
          && names[i] in r.index && from <= spans[i].start
          && H.ProbeSpan(h, spans[i].start, spans[i].end, r.index[names[i]]))
    && (forall i, j :: 0 <= i < j < |spans| ==> spans[i].end <= spans[j].start)
  }

  /** Each of the first n probes found that no session came up. */
  ghost predicate NoneUp(past: Past, r: Registry, names: seq<string>, spans: seq<Span>, n: nat) {
    && n <= |spans| <= |names|
    && forall i :: 0 <= i < n ==> names[i] in r.index && Found(past, spans[i], r.index[names[i]], false)
  }

  /** The probe at position i found model m up. */
  ghost predicate UpAt(
    past: Past, r: Registry, names: seq<string>, spans: seq<Span>, i: nat, m: string)
  {
    && i < |spans| && i < |names| && names[i] in r.index && r.index[names[i]] == m
    && Found(past, spans[i], m, true)
  }

  /** The models that can be started in the circumstances of their probes. */
  ghost function CameUp(past: Past, r: Registry, names: seq<string>, spans: seq<Span>): string -> bool {
    m => exists i: nat :: Startable(past, r, names, spans, i, m)
  }

  ghost predicate Startable(past: Past, r: Registry, names: seq<string>, spans: seq<Span>, i: nat, m: string) {
    && i < |spans| && i < |names| && names[i] in r.index && r.index[names[i]] == m
    && H.CanStart(past.c, past.fate, past.h, spans[i].start, spans[i].end, m)
  }

  lemma {:induction false} PassOver(r: Registry, names: seq<string>, j: nat, k: nat, starts: string -> bool)
    requires j <= k <= |names| && forall i :: j <= i < k ==> names[i] in r.index && !starts(r.index[names[i]])
    ensures StartAt(r, names, j, starts) == StartAt(r, names, k, starts)
    decreases k - j
  {
    if j < k {
      PassOver(r, names, j + 1, k, starts);
    }
  }

  /** A name whose probe failed did not come up, as the others stand for other models. */
  lemma DidNotComeUp(
    past: Past, r: Registry, names: seq<string>, spans: seq<Span>, n: nat, i: nat)
    requires NoneUp(past, r, names, spans, n) && i < n && DifferentModels(r, names)
    ensures !CameUp(past, r, names, spans)(r.index[names[i]])
  {
    forall j: nat
      ensures !Startable(past, r, names, spans, j, r.index[names[i]])
    {
      if j < |names| && j != i && names[j] in r.index {
        assert r.index[names[j]] != r.index[names[i]];
      }
    }
  }

  lemma FirstUpIsStarted(past: Past, r: Registry, q: Request, spans: seq<Span>, k: nat)
    requires NoneUp(past, r, List(q), spans, k) && k < |List(q)| && List(q)[k] in r.index && DifferentModels(r, List(q))
    requires UpAt(past, r, List(q), spans, k, r.index[List(q)[k]])
    ensures Start(r, q, CameUp(past, r, List(q), spans)) == Ok(Started(q, k, r.index[List(q)[k]]))
  {
    var starts := CameUp(past, r, List(q), spans);
    assert Startable(past, r, List(q), spans, k, r.index[List(q)[k]]);
    forall i | 0 <= i < k
      ensures List(q)[i] in r.index && !starts(r.index[List(q)[i]])
    {
      DidNotComeUp(past, r, List(q), spans, k, i);
    }
    PassOver(r, List(q), 0, k, starts);
  }

  lemma NoneIsStarted(past: Past, r: Registry, q: Request, spans: seq<Span>)
    requires NoneUp(past, r, List(q), spans, |spans|) && DifferentModels(r, List(q))
    requires |spans| < |List(q)| ==> List(q)[|spans|] !in r.index
    ensures Start(r, q, CameUp(past, r, List(q), spans))
         == Err(if |spans| < |List(q)| then UnknownModel(List(q)[|spans|]) else Unavailable)
  {
    var starts := CameUp(past, r, List(q), spans);
    forall i | 0 <= i < |spans|
      ensures List(q)[i] in r.index && !starts(r.index[List(q)[i]])
    {
      DidNotComeUp(past, r, List(q), spans, |spans|, i);
    }
    PassOver(r, List(q), 0, |spans|, starts);
  }

  /** What the loop may answer after these probes: the first model that came up, or why there is none. */
  ghost predicate Answer(
    past: Past, r: Registry, q: Request, spans: seq<Span>, out: Result<Request, Trouble>)
  {
    && (DifferentModels(r, List(q)) ==> out == Start(r, q, CameUp(past, r, List(q), spans)))
    && match out
       case Ok(x) =>
         && 0 < |spans| <= |List(q)| && NoneUp(past, r, List(q), spans, |spans| - 1)
         && UpLast(past, r, q, spans) && x == Started(q, |spans| - 1, r.index[List(q)[|spans| - 1]])
       case Err(e) =>
         && NoneUp(past, r, List(q), spans, |spans|)
         && if |spans| < |List(q)| then List(q)[|spans|] !in r.index && e == UnknownModel(List(q)[|spans|])
            else e == Unavailable
  }

  ghost predicate UpLast(past: Past, r: Registry, q: Request, spans: seq<Span>) {
    0 < |spans| <= |List(q)| && List(q)[|spans| - 1] in r.index
    && UpAt(past, r, List(q), spans, |spans| - 1, r.index[List(q)[|spans| - 1]])
  }

  lemma AnswerUp(past: Past, r: Registry, q: Request, spans: seq<Span>)
    requires UpLast(past, r, q, spans) && NoneUp(past, r, List(q), spans, |spans| - 1)
    ensures Answer(past, r, q, spans, Ok(Started(q, |spans| - 1, r.index[List(q)[|spans| - 1]])))
  {
    if DifferentModels(r, List(q)) {
      FirstUpIsStarted(past, r, q, spans, |spans| - 1);
    }
  }

  lemma AnswerNone(past: Past, r: Registry, q: Request, spans: seq<Span>)
    requires NoneUp(past, r, List(q), spans, |spans|)
    requires |spans| < |List(q)| ==> List(q)[|spans|] !in r.index
    ensures Answer(past, r, q, spans, Err(if |spans| < |List(q)| then UnknownModel(List(q)[|spans|]) else Unavailable))
  {
    if DifferentModels(r, List(q)) {
      NoneIsStarted(past, r, q, spans);
    }
  }

  /** On an undisturbed start whose process says Ready in time, the first name is the one that runs. */
  lemma KindStartRuns(past: Past, r: Registry, q: Request, spans: seq<Span>, out: Result<Request, Trouble>)
    requires Answer(past, r, q, spans, out) && q.model in r.index && |spans| <= |List(q)|
    requires spans != [] ==> H.CanStart(past.c, past.fate, past.h, spans[0].start, spans[0].end, r.index[q.model])
    ensures out == Ok(q) && |spans| == 1
  {
    assert List(q)[0] == q.model;
  }

  /* ---------- a longer history ---------- */

  lemma FoundLater(past: Past, later: seq<M.Action>, span: Span, m: string, up: bool)
    requires past.h <= later && Found(past, span, m, up)
    ensures Found(past.(h := later), span, m, up)
  {
    assert later[..span.end] == past.h[..span.end];
    if span.start < span.end {
      assert later[..span.start] == past.h[..span.start] && later[..span.end - 1] == past.h[..span.end - 1];
    }
  }

  lemma NoneUpLater(
    past: Past, later: seq<M.Action>, r: Registry, names: seq<string>, spans: seq<Span>, n: nat)
    requires past.h <= later && NoneUp(past, r, names, spans, n)
    ensures NoneUp(past.(h := later), r, names, spans, n)
  {
    forall i | 0 <= i < n
      ensures Found(past.(h := later), spans[i], r.index[names[i]], false)
    {
      FoundLater(past, later, spans[i], r.index[names[i]], false);
    }
  }

  lemma ProbedLater(
    h: seq<M.Action>, later: seq<M.Action>, r: Registry, names: seq<string>, spans: seq<Span>, from: nat)
    requires h <= later && ProbedInOrder(h, r, names, spans, from)
    ensures ProbedInOrder(later, r, names, spans, from)
  {
    forall i | 0 <= i < |spans|
      ensures H.ProbeSpan(later, spans[i].start, spans[i].end, r.index[names[i]])
    {
      assert H.ProbeSpan(h, spans[i].start, spans[i].end, r.index[names[i]]);
    }
  }

  /** One more probe, after all the others. */
  lemma ProbedNext(h: seq<M.Action>, r: Registry, names: seq<string>, spans: seq<Span>, from: nat, next: Span)
    requires ProbedInOrder(h, r, names, spans, from) && |spans| < |names| && names[|spans|] in r.index
    requires from <= next.start && H.ProbeSpan(h, next.start, next.end, r.index[names[|spans|]])
    requires forall i :: 0 <= i < |spans| ==> spans[i].end <= next.start
    ensures ProbedInOrder(h, r, names, spans + [next], from)
  {
  }

  /* ---------- the code ---------- */

  method Adopt(request: Request, k: nat, candidate: string) returns (q: Request)
    ensures q == Started(request, k, candidate)
  {
    q := request;
    if k > 0 {
      q := q.(fallback := true);
      if q.fallbackFrom == "" {
        q := q.(fallbackFrom := q.model);
      }
      q := q.(model := candidate);
    }
  }

  /** Others act, then the next name is probed; the probe is recorded behind those before it. */
  method ProbeNext(p: P.Provider, r: Registry, names: seq<string>, k: nat, ghost spans: seq<Span>, ghost from: nat)
    returns (ok: bool, ghost more: seq<Span>)
    requires p.Valid() && p.mu == M.Free && from <= |p.history| && k < |names| && names[k] in r.index && |spans| == k
    requires ProbedInOrder(p.history, r, names, spans, from) && NoneUp(PastOf(p), r, names, spans, k)
    modifies p
    ensures p.Valid() && p.mu == M.Free && old(p.history) <= p.history
    ensures |more| == k + 1 && ProbedInOrder(p.history, r, names, more, from)
    ensures NoneUp(PastOf(p), r, names, more, if ok then k else k + 1)
    ensures ok ==> UpAt(PastOf(p), r, names, more, k, r.index[names[k]])
    ensures ok ==> Serves(p, r.index[names[k]])
  {
    ghost var before := p.history;
    p.Others();
    ghost var start := |p.history|;
    ProbedLater(before, p.history, r, names, spans, from);
    ghost var middle := p.history;
    ok := p.Probe(r.index[names[k]]);
    ProbedLater(middle, p.history, r, names, spans, from);
    more := spans + [Span(start, |p.history|)];
    SpansEnd(middle, r, names, spans, from);
    ProbedNext(p.history, r, names, spans, from, Span(start, |p.history|));
    NoneUpLater(Past(p.config, p.fate, before), p.history, r, names, spans, k);
    assert p.history[..|p.history|] == p.history;
    assert Found(PastOf(p), Span(start, |p.history|), r.index[names[k]], ok);
    assert forall i :: 0 <= i < k ==> more[i] == spans[i];
  }

  lemma SpansEnd(h: seq<M.Action>, r: Registry, names: seq<string>, spans: seq<Span>, from: nat)
    requires ProbedInOrder(h, r, names, spans, from)
    ensures forall i :: 0 <= i < |spans| ==> spans[i].end <= |h|
  {
    forall i | 0 <= i < |spans|
      ensures spans[i].end <= |h|
    {
      assert H.ProbeSpan(h, spans[i].start, spans[i].end, r.index[names[i]]);
    }
  }

  ghost function PastOf(p: P.Provider): Past reads p { Past(p.config, p.fate, p.history) }

  /** p.session is there and runs model m. */
  predicate Serves(p: P.Provider, m: string) reads p {
    p.session.Some? && p.session.value < |p.sessions| && p.sessions[p.session.value].model == m
  }

  /** The last name that was probed has its session. */
  predicate LastServes(p: P.Provider, r: Registry, names: seq<string>, n: nat) reads p {
    0 < n <= |names| && names[n - 1] in r.index && Serves(p, r.index[names[n - 1]])
  }

  /** One turn of the loop, at position |spans|; `stop` when it returns. */
  method TryNext(p: P.Provider, r: Registry, request: Request, k: nat, ghost spans: seq<Span>, ghost from: nat)
    returns (stop: bool, out: Result<Request, Trouble>, ghost more: seq<Span>)
    requires p.Valid() && p.mu == M.Free && from <= |p.history| && |spans| == k < |List(request)|
    requires ProbedInOrder(p.history, r, List(request), spans, from)
    requires NoneUp(PastOf(p), r, List(request), spans, k)
    modifies p
    ensures p.Valid() && p.mu == M.Free && old(p.history) <= p.history
    ensures ProbedInOrder(p.history, r, List(request), more, from)
    ensures !stop ==> |more| == k + 1 && NoneUp(PastOf(p), r, List(request), more, k + 1)
    ensures stop ==> Answer(PastOf(p), r, request, more, out)
    ensures stop && out.Ok? ==> LastServes(p, r, List(request), |more|)
  {
    var name := List(request)[k];
    if name !in r.index {
      AnswerNone(PastOf(p), r, request, spans);
      return true, Err(UnknownModel(name)), spans;
    }
    stop, more := ProbeNext(p, r, List(request), k, spans, from);
    out := Err(Unavailable);
    if stop {
      AnswerUp(PastOf(p), r, request, more);
      var q := Adopt(request, k, r.index[name]);
      out := Ok(q);
    }
  }

  /** The names are probed one after the other, none after the first that comes up, and the request that
      is run is the specified one for what the probes found. */
  method Generate(p: P.Provider, r: Registry, request: Request)
    returns (out: Result<Request, Trouble>, ghost spans: seq<Span>)
    requires p.Valid() && p.mu == M.Free
    modifies p
    ensures p.Valid() && p.mu == M.Free && old(p.history) <= p.history
    ensures ProbedInOrder(p.history, r, List(request), spans, |old(p.history)|)
    ensures Answer(PastOf(p), r, request, spans, out)
    ensures out.Ok? ==> LastServes(p, r, List(request), |spans|)
  {
    spans := [];
    var k := 0;
    while k < |List(request)|
      invariant p.Valid() && p.mu == M.Free && old(p.history) <= p.history && |spans| == k <= |List(request)|
      invariant ProbedInOrder(p.history, r, List(request), spans, |old(p.history)|)
      invariant NoneUp(PastOf(p), r, List(request), spans, k)
    {
      var stop: bool;
      stop, out, spans := TryNext(p, r, request, k, spans, |old(p.history)|);
      if stop {
        return;
      }
      k := k + 1;
    }
    AnswerNone(PastOf(p), r, request, spans);
    out := Err(Unavailable);
  }

  /* ---------- from the target to the process ---------- */

  lemma DistinctAreDifferent(r: Registry, names: seq<string>)
    requires Distinct(names) && forall n :: n in names ==> n in r.index && r.index[n] == n
    ensures DifferentModels(r, names)
  {
  }

  lemma RouteNamesAreNames(r: Registry, t: Target, n: string)
    requires Accepted(r.cfg) && Built(r) && Routes(r.cfg, t) && n in RouteNames(r.cfg, t)
    ensures n in r.index && r.index[n] == n
  {
    RouteNamesMeant(r, t);
    AcceptedIsUnambiguous(r.cfg);
    NamesMeanThemselves(r, RouteIds(r.cfg, t), RouteNames(r.cfg, t), n);
  }

  lemma FallbacksAreDifferent(r: Registry, t: Target, x: Resolved)
    requires Accepted(r.cfg) && Built(r) && Routes(r.cfg, t) && UsesFallback(r.cfg)
    requires ResolveTarget(r, t, Enabled(r.cfg)) == Ok(x)
    ensures DifferentModels(r, [x.model] + x.fallbacks)
  {
    var names := [x.model] + x.fallbacks;
    FallbackOutcome(r, t, Enabled(r.cfg));
    FilterElements(RouteNames(r.cfg, t), Enabled(r.cfg));
    forall n | n in names
      ensures n in r.index && r.index[n] == n
    {
      RouteNamesAreNames(r, t, n);
    }
    DistinctAreDifferent(r, names);
  }

  lemma AloneWithoutFallback(r: Registry, t: Target, x: Resolved)
    requires ResolveTarget(r, t, Enabled(r.cfg)) == Ok(x)
    ensures if t.model == "" then Routes(r.cfg, t) && (!UsesFallback(r.cfg) ==> x.fallbacks == [])
            else x.fallbacks == []
  {
  }

  /** A resolved target lists different models. */
  lemma ResolvedAreDifferent(r: Registry, t: Target, x: Resolved)
    requires Accepted(r.cfg) && Built(r) && ResolveTarget(r, t, Enabled(r.cfg)) == Ok(x)
    ensures DifferentModels(r, List(ToRequest(x)))
  {
    AloneWithoutFallback(r, t, x);
    if t.model == "" && UsesFallback(r.cfg) {
      FallbacksAreDifferent(r, t, x);
    }
  }

  /** A request's target is resolved and its models are tried: what comes out is what the theorems on
      ordered fallback speak of, for the models that really came up. */
  method ResolveAndStart(p: P.Provider, r: Registry, t: Target)
    returns (out: Result<Request, Trouble>, ghost names: seq<string>, ghost spans: seq<Span>)
    requires p.Valid() && p.mu == M.Free && Accepted(r.cfg) && Built(r)
    modifies p
    ensures p.Valid() && p.mu == M.Free && old(p.history) <= p.history
    ensures ProbedInOrder(p.history, r, names, spans, |old(p.history)|)
    ensures out == EndToEnd(r, t, Enabled(r.cfg), CameUp(PastOf(p), r, names, spans))
    ensures out.Ok? ==> LastServes(p, r, names, |spans|)
  {
    names, spans := [], [];
    var resolved := ResolveEnabled(r, t);
    if resolved.Err? {
      return Err(resolved.error), names, spans;
    }
    ResolvedAreDifferent(r, t, resolved.value);
    names := List(ToRequest(resolved.value));
    out, spans := Generate(p, r, ToRequest(resolved.value));
  }
}
