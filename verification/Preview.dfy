/**
 The Markdown preview loader: a revision-keyed cache fed by one cancellable worker.

 Worker threads are part of the state: a worker may finish between any two calls of
 the host, and a cancelled worker may return anything at all.
 */
module Preview {

  type DocId = nat
  type Text = string

  datatype Option<T> = None | Some(value: T)
  datatype Markdown = Markdown(blocks: seq<nat>)
  datatype Projection = Ok(document: Markdown) | Err(message: string)

  datatype Status = Running | Returned(projection: Projection) | Panicked | Silent

  datatype Worker = Worker(document: DocId, revision: nat, text: Text, cancelled: bool, status: Status)

  /** What a document entry offers the loader; `refusal` says why its origin has no local source, if so. */
  datatype Entry = Entry(document: DocId, revision: nat, text: Text, refusal: Option<string>)

  datatype Outcome = Ready(document: Markdown) | Waiting | Failed(message: string)

  /** `workers` lists every thread ever started; `from` remembers which worker filled a cache slot
      (`None` for a slot filled by a failed spawn). */
  datatype Loader = Loader(
    workers: seq<Worker>,
    pending: Option<nat>,
    cache: map<DocId, (nat, Projection)>,
    from: map<DocId, Option<nat>>)

  const EMPTY := Loader([], None, map[], map[])

  const STOPPED := "Markdown preview stopped unexpectedly. Return to Edit and retry."
  const NO_RESULT := "Markdown preview ended without a result. Return to Edit and retry."

  function Collected(w: Worker): Projection {
    match w.status
    case Returned(p) => p
    case Panicked => Err(STOPPED)
    case _ => Err(NO_RESULT)
  }

  function Shown(p: Projection): Outcome {
    match p
    case Ok(document) => Ready(document)
    case Err(message) => Failed(message)
  }

  predicate Sound(s: Loader) {
    s.pending.Some? ==> s.pending.value < |s.workers|
  }

  function Cancelled(s: Loader): Loader
    requires Sound(s)
  {
    if s.pending.None? then s
    else s.(workers := s.workers[s.pending.value := s.workers[s.pending.value].(cancelled := true)])
  }

  function Forgotten(s: Loader, d: DocId): Loader
    requires Sound(s)
  {
    var s := s.(cache := s.cache - {d}, from := s.from - {d});
    if s.pending.Some? && s.workers[s.pending.value].document == d then Cancelled(s) else s
  }

  /** A call first cancels a worker that is busy with anything else. */
  function Focused(s: Loader, e: Entry): Loader
    requires Sound(s)
  {
    if s.pending.Some?
       && (s.workers[s.pending.value].document != e.document || s.workers[s.pending.value].revision != e.revision)
    then Cancelled(s) else s
  }

  /** Then it joins a finished worker and keeps the result if it is still wanted. */
  function Joined(s: Loader, e: Entry): Loader
    requires Sound(s)
  {
    if s.pending.None? || s.workers[s.pending.value].status.Running? then s
    else
      var at := s.pending.value;
      var w := s.workers[at];
      var s := s.(pending := None);
      if w.document == e.document && w.revision == e.revision && !w.cancelled
      then s.(cache := s.cache[e.document := (e.revision, Collected(w))], from := s.from[e.document := Some(at)])
      else s
  }

  /** Last it answers from the cache, waits, or starts a worker.  `spawn` is the spawn error, if any. */
  function Answered(s: Loader, e: Entry, spawn: Option<string>): (Loader, Outcome) {
    if e.document in s.cache && s.cache[e.document].0 == e.revision then (s, Shown(s.cache[e.document].1))
    else if s.pending.Some? then (s, Waiting)
    else if e.refusal.Some? then (s, Failed(e.refusal.value))
    else if spawn.Some? then
      (s.(cache := s.cache[e.document := (e.revision, Err(spawn.value))], from := s.from[e.document := None]),
       Failed(spawn.value))
    else
      (s.(workers := s.workers + [Worker(e.document, e.revision, e.text, false, Running)],
          pending := Some(|s.workers|)),
       Waiting)
  }

  function Called(s: Loader, e: Entry, spawn: Option<string>): (Loader, Outcome)
    requires Sound(s)
  {
    Answered(Joined(Focused(s, e), e), e, spawn)
  }

  // ----- the object -----

  class PreviewLoader {
    var pending: Option<nat>
    var cache: map<DocId, (nat, Projection)>
    var workers: seq<Worker>
    ghost var from: map<DocId, Option<nat>>

    ghost function State(): Loader
      reads this
    {
      Loader(workers, pending, cache, from)
    }

    constructor ()
      ensures State() == EMPTY
    {
      pending, cache, workers, from := None, map[], [], map[];
    }

    method Cancel()
      requires Sound(State()) && pending.Some?
      modifies this`workers
      ensures State() == Cancelled(old(State()))
    {
      workers := workers[pending.value := workers[pending.value].(cancelled := true)];
    }

    method Forget(document: DocId)
      requires Sound(State())
      modifies this
      ensures State() == Forgotten(old(State()), document)
    {
      cache := cache - {document};
      from := from - {document};
      if pending.Some? && workers[pending.value].document == document {
        Cancel();
      }
    }

    method Document(e: Entry, spawn: Option<string>) returns (outcome: Outcome)
      requires Sound(State())
      modifies this
      ensures (State(), outcome) == Called(old(State()), e, spawn)
    {
      if pending.Some? {
        var busy := workers[pending.value];
        if busy.document != e.document || busy.revision != e.revision {
          Cancel();
        }
      }
      if pending.Some? && !workers[pending.value].status.Running? {
        var at := pending.value;
        var done := workers[at];
        pending := None;
        var result := Collected(done);
        if done.document == e.document && done.revision == e.revision && !done.cancelled {
          cache := cache[e.document := (e.revision, result)];
          from := from[e.document := Some(at)];
        }
      }
      if e.document in cache {
        var (revision, result) := cache[e.document];
        if revision == e.revision {
          return Shown(result);
        }
      }
      if pending.Some? {
        return Waiting;
      }
      if e.refusal.Some? {
        return Failed(e.refusal.value);
      }
      if spawn.Some? {
        cache := cache[e.document := (e.revision, Err(spawn.value))];
        from := from[e.document := None];
        return Failed(spawn.value);
      }
      pending := Some(|workers|);
      workers := workers + [Worker(e.document, e.revision, e.text, false, Running)];
      return Waiting;
    }
  }

  // ----- runs -----

  /** The world around the loader: the text of each document revision and what parsing it yields. */
  datatype World = World(text: (DocId, nat) -> Text, parse: Text -> Projection)

  datatype Step =
    | Call(entry: Entry, spawn: Option<string>)
    | Forget(document: DocId)
    | Finish(worker: nat, status: Status)

  ghost predicate Enabled(world: World, s: Loader, step: Step) {
    match step
    case Call(e, _) => e.text == world.text(e.document, e.revision)
    case Forget(_) => true
    case Finish(w, status) =>
      && w < |s.workers| && s.workers[w].status.Running? && !status.Running?
      && (status.Returned? && !s.workers[w].cancelled ==> status.projection == world.parse(s.workers[w].text))
  }

  ghost function Apply(world: World, s: Loader, step: Step): Loader
    requires Sound(s) && Enabled(world, s, step)
  {
    match step
    case Call(e, spawn) => Called(s, e, spawn).0
    case Forget(d) => Forgotten(s, d)
    case Finish(w, status) => s.(workers := s.workers[w := s.workers[w].(status := status)])
  }

  /** The slot of `d` was filled by worker `w`, which was never cancelled and is out of reach of a late cancel. */
  ghost predicate Filled(s: Loader, d: DocId, w: nat)
    requires d in s.cache
  {
    && w < |s.workers| && s.pending != Some(w)
    && !s.workers[w].cancelled && !s.workers[w].status.Running?
    && s.workers[w].document == d && s.workers[w].revision == s.cache[d].0
    && s.cache[d].1 == Collected(s.workers[w])
  }

  ghost predicate Inv(world: World, s: Loader) {
    && Sound(s)
    && s.cache.Keys == s.from.Keys
    && (forall w :: 0 <= w < |s.workers| && s.workers[w].status.Running? ==> s.pending == Some(w))
    && (forall w :: 0 <= w < |s.workers| ==>
          s.workers[w].text == world.text(s.workers[w].document, s.workers[w].revision))
    && (forall w :: 0 <= w < |s.workers| && s.workers[w].status.Returned? && !s.workers[w].cancelled ==>
          s.workers[w].status.projection == world.parse(s.workers[w].text))
    && (forall d :: d in s.cache ==>
          match s.from[d]
          case Some(w) => Filled(s, d, w)
          case None => s.cache[d].1.Err?)
  }

  lemma {:induction false} StepKeepsInv(world: World, s: Loader, step: Step)
    requires Inv(world, s) && Enabled(world, s, step)
    ensures Inv(world, Apply(world, s, step))
  {
    match step
    case Call(e, spawn) =>
      FocusKeepsInv(world, s, e);
      JoinKeepsInv(world, Focused(s, e), e);
      AnswerKeepsInv(world, Joined(Focused(s, e), e), e, spawn);
    case Forget(d) => ForgetKeepsInv(world, s, d);
    case Finish(w, status) => FinishedKeepsInv(world, s, w, status);
  }

  lemma {:induction false} ForgetKeepsInv(world: World, s: Loader, d: DocId)
    requires Inv(world, s)
    ensures Inv(world, Forgotten(s, d))
  {}

  lemma {:induction false} FinishedKeepsInv(world: World, s: Loader, w: nat, status: Status)
    requires Inv(world, s) && Enabled(world, s, Finish(w, status))
    ensures Inv(world, s.(workers := s.workers[w := s.workers[w].(status := status)]))
  {}

  lemma {:induction false} FocusKeepsInv(world: World, s: Loader, e: Entry)
    requires Inv(world, s)
    ensures Inv(world, Focused(s, e))
  {}

  lemma {:induction false} JoinKeepsInv(world: World, s: Loader, e: Entry)
    requires Inv(world, s)
    ensures Inv(world, Joined(s, e))
  {}

  lemma {:induction false} AnswerKeepsInv(world: World, s: Loader, e: Entry, spawn: Option<string>)
    requires Inv(world, s) && e.text == world.text(e.document, e.revision)
    ensures Inv(world, Answered(s, e, spawn).0)
  {}

  /** A call fills at most the slot of its own document, and forgetting empties exactly one; so the documents with
      a slot are among those previewed and not closed since. */
  lemma {:induction false} SlotsFollowCalls(s: Loader, e: Entry, spawn: Option<string>, d: DocId)
    requires Sound(s)
    ensures Called(s, e, spawn).0.cache.Keys <= s.cache.Keys + {e.document}
    ensures s.cache.Keys <= Called(s, e, spawn).0.cache.Keys
    ensures Forgotten(s, d).cache.Keys == s.cache.Keys - {d}
  {}

  /** `trace` is a run of the loader from the empty state; `trace[i]` is the state before `steps[i]`. */
  ghost predicate Run(world: World, trace: seq<Loader>, steps: seq<Step>) {
    && |trace| == |steps| + 1 && trace[0] == EMPTY
    && forall i :: 0 <= i < |steps| ==>
         Sound(trace[i]) && Enabled(world, trace[i], steps[i]) && trace[i + 1] == Apply(world, trace[i], steps[i])
  }

  lemma {:induction false} RunKeepsInv(world: World, trace: seq<Loader>, steps: seq<Step>, k: nat)
    requires Run(world, trace, steps) && k < |trace|
    ensures Inv(world, trace[k])
    decreases k
  {
    if k > 0 {
      RunKeepsInv(world, trace, steps, k - 1);
      StepKeepsInv(world, trace[k - 1], steps[k - 1]);
    }
  }

  /** Coherence: whatever happened before, an answered document is the parse of the text asked about. */
  lemma {:induction false} AnswersAreCurrent(world: World, trace: seq<Loader>, steps: seq<Step>, k: nat)
    requires Run(world, trace, steps) && k < |steps| && steps[k].Call?
    ensures var e := steps[k].entry;
            var (after, outcome) := Called(trace[k], e, steps[k].spawn);
            outcome.Ready? ==>
              && Ok(outcome.document) == world.parse(world.text(e.document, e.revision))
              && e.document in after.from && after.from[e.document].Some?
              && var w := after.from[e.document].value;
                 w < |after.workers| && !after.workers[w].cancelled
                 && after.workers[w].document == e.document && after.workers[w].revision == e.revision
  {
    RunKeepsInv(world, trace, steps, k + 1);
  }

  /** At most one worker thread is alive at any moment of any run. */
  lemma {:induction false} OneWorker(world: World, trace: seq<Loader>, steps: seq<Step>, k: nat, a: nat, b: nat)
    requires Run(world, trace, steps) && k < |trace|
    requires a < |trace[k].workers| && b < |trace[k].workers|
    requires trace[k].workers[a].status.Running? && trace[k].workers[b].status.Running?
    ensures a == b
  {
    RunKeepsInv(world, trace, steps, k);
  }

  /** Cancellation is final, and the list of threads only grows. */
  ghost predicate Older(s: Loader, t: Loader) {
    && |s.workers| <= |t.workers|
    && forall w :: 0 <= w < |s.workers| ==>
         && t.workers[w].document == s.workers[w].document && t.workers[w].revision == s.workers[w].revision
         && (s.workers[w].cancelled ==> t.workers[w].cancelled)
  }

  lemma {:induction false} StepOlder(world: World, s: Loader, step: Step)
    requires Sound(s) && Enabled(world, s, step)
    ensures Older(s, Apply(world, s, step))
  {
    match step
    case Call(e, spawn) =>
      assert Older(s, Focused(s, e));
      assert Joined(Focused(s, e), e).workers == Focused(s, e).workers;
    case Forget(d) =>
    case Finish(_, _) =>
  }

  lemma {:induction false} CancelIsFinal(world: World, trace: seq<Loader>, steps: seq<Step>, i: nat, k: nat)
    requires Run(world, trace, steps) && i <= k < |trace|
    ensures Older(trace[i], trace[k])
    decreases k - i
  {
    if i < k {
      CancelIsFinal(world, trace, steps, i, k - 1);
      StepOlder(world, trace[k - 1], steps[k - 1]);
      OlderTrans(trace[i], trace[k - 1], trace[k]);
    }
  }

  lemma {:induction false} OlderTrans(s: Loader, t: Loader, u: Loader)
    requires Older(s, t) && Older(t, u)
    ensures Older(s, u)
  {}

  /** Nothing started before worker number `n` can fill the slot of `d` any more. */
  ghost predicate Shut(s: Loader, d: DocId, n: nat) {
    && n <= |s.workers|
    && (d in s.from && s.from[d].Some? ==> s.from[d].value >= n)
    && (s.pending.Some? && s.pending.value < n && s.pending.value < |s.workers|
         && s.workers[s.pending.value].document == d ==>
          s.workers[s.pending.value].cancelled)
  }

  lemma {:induction false} FocusKeepsShut(s: Loader, e: Entry, d: DocId, n: nat)
    requires Sound(s) && Shut(s, d, n)
    ensures Shut(Focused(s, e), d, n)
  {}

  lemma {:induction false} JoinKeepsShut(s: Loader, e: Entry, d: DocId, n: nat)
    requires Sound(s) && Shut(s, d, n)
    ensures Shut(Joined(s, e), d, n)
  {}

  lemma {:induction false} AnswerKeepsShut(s: Loader, e: Entry, spawn: Option<string>, d: DocId, n: nat)
    requires Sound(s) && Shut(s, d, n)
    ensures Shut(Answered(s, e, spawn).0, d, n)
  {}

  lemma {:induction false} ForgetKeepsShut(s: Loader, d': DocId, d: DocId, n: nat)
    requires Sound(s) && Shut(s, d, n)
    ensures Shut(Forgotten(s, d'), d, n)
  {}

  lemma {:induction false} StepKeepsShut(world: World, s: Loader, step: Step, d: DocId, n: nat)
    requires Sound(s) && Enabled(world, s, step) && Shut(s, d, n)
    ensures Shut(Apply(world, s, step), d, n)
  {
    match step
    case Call(e, spawn) =>
      FocusKeepsShut(s, e, d, n);
      JoinKeepsShut(Focused(s, e), e, d, n);
      AnswerKeepsShut(Joined(Focused(s, e), e), e, spawn, d, n);
    case Forget(d') => ForgetKeepsShut(s, d', d, n);
    case Finish(_, _) =>
  }

  lemma {:induction false} ForgetShuts(s: Loader, d: DocId)
    requires Sound(s)
    ensures Shut(Forgotten(s, d), d, |s.workers|)
  {}

  /** After `forget(d)` no result of a worker started earlier ever enters the cache for `d`. */
  lemma {:induction false} ForgetIsFinal(world: World, trace: seq<Loader>, steps: seq<Step>, i: nat, k: nat, d: DocId)
    requires Run(world, trace, steps) && i < k < |trace| && steps[i] == Forget(d)
    ensures Shut(trace[k], d, |trace[i].workers|)
    decreases k
  {
    if k == i + 1 {
      ForgetShuts(trace[i], d);
    } else {
      ForgetIsFinal(world, trace, steps, i, k - 1, d);
      StepKeepsShut(world, trace[k - 1], steps[k - 1], d, |trace[i].workers|);
    }
  }

  /** The pending worker, if still running, finishes. */
  ghost predicate Finishes(world: World, s: Loader, t: Loader) {
    if s.pending.Some? && s.pending.value < |s.workers| && s.workers[s.pending.value].status.Running? then
      exists status :: Enabled(world, s, Finish(s.pending.value, status)) && Sound(s) &&
                       t == Apply(world, s, Finish(s.pending.value, status))
    else t == s
  }

  /** No worker stands between the entry and an answer, or the right one has finished. */
  ghost predicate Answerable(s: Loader, e: Entry) {
    || (e.document in s.cache && s.cache[e.document].0 == e.revision)
    || (s.pending.Some? && s.pending.value < |s.workers| &&
        var w := s.workers[s.pending.value];
        w.document == e.document && w.revision == e.revision && !w.cancelled && !w.status.Running?)
  }

  ghost predicate Idle(s: Loader) {
    Sound(s) && forall w :: 0 <= w < |s.workers| ==> !s.workers[w].status.Running?
  }

  /** A call with no thread running leaves the answer, or a fresh worker for it, behind. */
  lemma {:induction false} IdleCall(s: Loader, e: Entry)
    requires Idle(s) && e.refusal.None?
    ensures var t := Called(s, e, None).0;
            || (e.document in t.cache && t.cache[e.document].0 == e.revision)
            || (Sound(t) && t.pending.Some?
                && t.workers[t.pending.value] == Worker(e.document, e.revision, e.text, false, Running))
  {}

  /** What the host is told about the outcome of a parse. */
  ghost predicate Tells(outcome: Outcome, parsed: Projection) {
    && (forall m :: outcome == Ready(m) <==> parsed == Ok(m))
    && (forall message :: outcome == Failed(message) <==> parsed == Err(message))
  }

  /** A call that finds the worker of its document and revision finished, and not cancelled, says how it ended: the
      parse of the text, shown if it is a document and reported if it is an error; or that the worker died or said
      nothing. */
  lemma {:induction false} FinishedWorkerAnswers(world: World, s: Loader, e: Entry, spawn: Option<string>)
    requires Inv(world, s) && s.pending.Some?
    requires var w := s.workers[s.pending.value];
             w.document == e.document && w.revision == e.revision && !w.cancelled && !w.status.Running?
    ensures var (after, outcome) := Called(s, e, spawn);
            && after.pending.None?
            && match s.workers[s.pending.value].status
               case Returned(_) => Tells(outcome, world.parse(world.text(e.document, e.revision)))
               case Panicked =>
                 outcome == Failed("Markdown preview stopped unexpectedly. Return to Edit and retry.")
               case Silent =>
                 outcome == Failed("Markdown preview ended without a result. Return to Edit and retry.")
               case Running => true
  {}

  /** What a call has answered it answers again, until the text changes or the document is forgotten. */
  lemma {:induction false} AnswersAreKept(world: World, s: Loader, e: Entry, spawn: Option<string>,
                                          again: Option<string>)
    requires Inv(world, s) && e.text == world.text(e.document, e.revision) && e.refusal.None?
    ensures var (after, outcome) := Called(s, e, spawn);
            Sound(after) && (!outcome.Waiting? ==> Called(after, e, again).1 == outcome)
  {
    StepKeepsInv(world, s, Call(e, spawn));
  }

  /** A call without an answer: it waits for the thread still running; or it says why there is no local source; or it
      reports that no thread could be started; or it starts one on exactly the text it was given. */
  lemma {:induction false} UnansweredCall(s: Loader, e: Entry, spawn: Option<string>)
    requires Sound(s) && !Answerable(s, e)
    ensures var (after, outcome) := Called(s, e, spawn);
            if s.pending.Some? && s.workers[s.pending.value].status.Running? then
              outcome == Waiting && after.pending == s.pending && after.cache == s.cache
            else if e.refusal.Some? then
              outcome == Failed(e.refusal.value) && after.pending.None? && after.cache == s.cache
            else if spawn.Some? then
              outcome == Failed(spawn.value) && after.pending.None?
              && after.cache == s.cache[e.document := (e.revision, Err(spawn.value))]
            else
              outcome == Waiting && after.cache == s.cache && after.pending == Some(|s.workers|)
              && |after.workers| == |s.workers| + 1
              && after.workers[|s.workers|] == Worker(e.document, e.revision, e.text, false, Running)
  {}

  /** After a call the thread still at work is one for its document and revision, or it has been told to stop. */
  lemma {:induction false} OtherWorkIsCancelled(s: Loader, e: Entry, spawn: Option<string>)
    requires Sound(s)
    ensures var after := Called(s, e, spawn).0;
            Sound(after) && (after.pending.Some? ==>
              var w := after.workers[after.pending.value];
              w.cancelled || (w.document == e.document && w.revision == e.revision))
  {}

  /** No thread died, and no thread failed to start. */
  ghost predicate Healthy(s: Loader) {
    && (forall w :: 0 <= w < |s.workers| && !s.workers[w].cancelled && !s.workers[w].status.Running? ==>
          s.workers[w].status.Returned?)
    && (forall d :: d in s.from ==> s.from[d].Some?)
  }

  /** Progress: with spawning possible and the worker finishing between calls, the third call for an unchanged
      revision has an answer, from any reachable state; and it is the parse of the text unless a thread died. */
  lemma {:induction false} ThirdCallAnswers(world: World, s: Loader, e: Entry, s1: Loader, s2: Loader)
    requires Inv(world, s) && e.text == world.text(e.document, e.revision) && e.refusal.None?
    requires Finishes(world, Called(s, e, None).0, s1)
    requires Sound(s1) && Finishes(world, Called(s1, e, None).0, s2)
    ensures Sound(s2) && !Called(s2, e, None).1.Waiting?
    ensures Healthy(s2) ==> Tells(Called(s2, e, None).1, world.parse(e.text))
  {
    StepKeepsInv(world, s, Call(e, None));
    FinishKeepsInv(world, Called(s, e, None).0, s1);
    IdleCall(s1, e);
    StepKeepsInv(world, s1, Call(e, None));
    FinishKeepsInv(world, Called(s1, e, None).0, s2);
    AnswerableAnswers(s2, e);
    if Healthy(s2) {
      HealthyAnswers(world, s2, e);
    }
  }

  lemma {:induction false} HealthyAnswers(world: World, s: Loader, e: Entry)
    requires Inv(world, s) && Answerable(s, e) && Healthy(s) && e.text == world.text(e.document, e.revision)
    ensures Tells(Called(s, e, None).1, world.parse(e.text))
  {
    if s.pending.Some? && var w := s.workers[s.pending.value];
       w.document == e.document && w.revision == e.revision && !w.cancelled && !w.status.Running? {
      FinishedWorkerAnswers(world, s, e, None);
    } else {
      CachedAnswer(world, s, e);
    }
  }

  lemma {:induction false} CachedAnswer(world: World, s: Loader, e: Entry)
    requires Inv(world, s) && e.document in s.cache && s.cache[e.document].0 == e.revision && Healthy(s)
    requires s.pending.Some? ==>
               var w := s.workers[s.pending.value];
               !(w.document == e.document && w.revision == e.revision && !w.cancelled && !w.status.Running?)
    ensures Tells(Called(s, e, None).1, world.parse(world.text(e.document, e.revision)))
  {
    var w := s.from[e.document].value;
    assert Filled(s, e.document, w);
  }

  lemma {:induction false} AnswerableAnswers(s: Loader, e: Entry)
    requires Sound(s) && Answerable(s, e)
    ensures !Called(s, e, None).1.Waiting?
  {}

  lemma {:induction false} FinishKeepsInv(world: World, s: Loader, t: Loader)
    requires Inv(world, s) && Finishes(world, s, t)
    ensures Inv(world, t) && Idle(t)
    ensures t.pending == s.pending && t.cache == s.cache && |t.workers| == |s.workers|
    ensures forall w :: 0 <= w < |t.workers| ==>
              t.workers[w] == s.workers[w].(status := t.workers[w].status)
  {
    if s.pending.Some? && s.workers[s.pending.value].status.Running? {
      var status :| Enabled(world, s, Finish(s.pending.value, status))
          && t == Apply(world, s, Finish(s.pending.value, status));
      StepKeepsInv(world, s, Finish(s.pending.value, status));
    }
  }
}
