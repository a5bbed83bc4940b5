/**
 What one poll of the document host does, and that it is a run of host steps.
 */
module HostPolls {
  import opened Registry
  import opened HostSteps
  import opened HostFrames
  import opened HostInvariant

  // ----- the parts of a poll -----

  /** The picker, the file being opened and the writer epoch. */
  ghost function Outside(h: Host, picked: Option<Option<FileError>>, arrived: Option<Option<FileSnapshot>>,
                         epochChanged: bool): Host
  {
    var h := if picked.Some? then Picked(h, picked.value) else h;
    var h := if arrived.None? then h
             else if arrived.value.None? then h.(opening := None)
             else OpeningLoaded(h, arrived.value.value).0;
    if epochChanged then h.(refresh := h.refresh + h.sources.Keys) else h
  }

  /** The file being opened arrived, and got its view. */
  ghost predicate Attaches(h: Host, picked: Option<Option<FileError>>, arrived: Option<Option<FileSnapshot>>) {
    arrived.Some? && arrived.value.Some?
    && OpeningLoaded(if picked.Some? then Picked(h, picked.value) else h, arrived.value.value).1
  }

  function Tagged(id: DocId, queued: map<DocId, seq<Event>>): seq<(DocId, Event)> {
    if id in queued then seq(|queued[id]|, i requires 0 <= i < |queued[id]| => (id, queued[id][i])) else []
  }

  /** What the sources have queued: source by source, in the order of each queue. */
  function Gathered(ids: seq<DocId>, queued: map<DocId, seq<Event>>): seq<(DocId, Event)> {
    if ids == [] then [] else Gathered(ids[..|ids| - 1], queued) + Tagged(ids[|ids| - 1], queued)
  }

  ghost function EventedAll(h: Host, events: seq<(DocId, Event)>): Host
    decreases |events|
  {
    if events == [] then h
    else Evented(EventedAll(h, events[..|events| - 1]), events[|events| - 1].0, events[|events| - 1].1)
  }

  function Outcome(failures: map<DocId, FileError>, id: DocId): Option<FileError> {
    if id in failures then Some(failures[id]) else None
  }

  ghost function RefreshedAll(h: Host, ids: seq<DocId>, failures: map<DocId, FileError>): Host
    decreases |ids|
  {
    if ids == [] then h
    else Refreshed(RefreshedAll(h, ids[..|ids| - 1], failures), ids[|ids| - 1], Outcome(failures, ids[|ids| - 1]))
  }

  ghost function Polled(h: Host, picked: Option<Option<FileError>>, arrived: Option<Option<FileSnapshot>>,
                        epochChanged: bool, sourceIds: seq<DocId>, queued: map<DocId, seq<Event>>,
                        ids: seq<DocId>, failures: map<DocId, FileError>): Host
  {
    RefreshedAll(EventedAll(Outside(h, picked, arrived, epochChanged), Gathered(sourceIds, queued)), ids, failures)
  }

  /** The poll walks all sources, and then all queued documents, each once. */
  ghost predicate PollOrders(h: Host, picked: Option<Option<FileError>>, arrived: Option<Option<FileSnapshot>>,
                             epochChanged: bool, sourceIds: seq<DocId>, queued: map<DocId, seq<Event>>,
                             ids: seq<DocId>)
  {
    var middle := Outside(h, picked, arrived, epochChanged);
    var last := EventedAll(middle, Gathered(sourceIds, queued));
    && Elements(sourceIds) == middle.sources.Keys && NoRepeats(sourceIds)
    && Elements(ids) == last.refresh && NoRepeats(ids)
  }

  // ----- orders -----

  ghost predicate NoRepeats(ids: seq<DocId>) {
    forall i, j :: 0 <= i < j < |ids| ==> ids[i] != ids[j]
  }

  ghost function Elements(ids: seq<DocId>): set<DocId> {
    set id | id in ids
  }

  lemma {:induction false} ElementsGrow(ids: seq<DocId>, at: nat)
    requires at < |ids| && NoRepeats(ids)
    ensures ids[at] !in Elements(ids[..at])
    ensures Elements(ids[..at + 1]) == Elements(ids[..at]) + {ids[at]}
  {
    assert ids[..at + 1] == ids[..at] + [ids[at]];
  }

  lemma {:induction false} GatheredFromSources(ids: seq<DocId>, queued: map<DocId, seq<Event>>)
    ensures forall e :: e in Gathered(ids, queued) ==> e.0 in Elements(ids)
    decreases |ids|
  {
    if ids != [] {
      GatheredFromSources(ids[..|ids| - 1], queued);
    }
  }

  // ----- a poll is a run of steps -----

  lemma {:induction false} FoldLast(apply: (Host, Step) -> Host, h: Host, steps: seq<Step>, step: Step)
    ensures Fold(apply, h, steps + [step]) == apply(Fold(apply, h, steps), step)
  {
    assert (steps + [step])[..|steps|] == steps;
  }

  lemma {:induction false} FoldInTurn(apply: (Host, Step) -> Host, h: Host, first: seq<Step>, second: seq<Step>)
    ensures Fold(apply, h, first + second) == Fold(apply, Fold(apply, h, first), second)
    decreases |second|
  {
    if second == [] {
      assert first + second == first;
    } else {
      var n := |second| - 1;
      assert (first + second)[..|first + second| - 1] == first + second[..n];
      FoldInTurn(apply, h, first, second[..n]);
    }
  }

  lemma {:induction false} FoldKeepsInv(apply: (Host, Step) -> Host, h: Host, steps: seq<Step>)
    requires Inv(h) && forall g, step :: Inv(g) ==> Inv(apply(g, step))
    ensures Inv(Fold(apply, h, steps))
    decreases |steps|
  {
    if steps != [] {
      FoldKeepsInv(apply, h, steps[..|steps| - 1]);
    }
  }

  /** `apply` does what the parts of a poll do. */
  ghost predicate DoesOutside(apply: (Host, Step) -> Host) {
    && (forall g, failure :: apply(g, Pick(failure)) == Picked(g, failure))
    && (forall g, s :: apply(g, OpenLoaded(s)) == OpeningLoaded(g, s).0)
    && (forall g :: apply(g, OpenFailed) == g.(opening := None))
    && (forall g :: apply(g, EpochChanged) == g.(refresh := g.refresh + g.sources.Keys))
  }

  ghost predicate DoesEvents(apply: (Host, Step) -> Host) {
    forall g: Host, id, event ::
      id in g.registry.documents ==> apply(g, SourceEvent(id, event)) == Evented(g, id, event)
  }

  ghost predicate DoesRefreshes(apply: (Host, Step) -> Host) {
    forall g: Host, id, failure :: id in g.refresh ==> apply(g, RefreshOne(id, failure)) == Refreshed(g, id, failure)
  }

  lemma {:induction false} OutsideFolds(apply: (Host, Step) -> Host, h: Host, picked: Option<Option<FileError>>,
                                        arrived: Option<Option<FileSnapshot>>, epochChanged: bool)
    returns (steps: seq<Step>)
    requires DoesOutside(apply)
    ensures Fold(apply, h, steps) == Outside(h, picked, arrived, epochChanged)
  {
    var a := if picked.Some? then [Pick(picked.value)] else [];
    FoldOne(apply, h, a);
    var h1 := Fold(apply, h, a);
    var b := if arrived.None? then [] else if arrived.value.None? then [OpenFailed]
        else [OpenLoaded(arrived.value.value)];
    FoldOne(apply, h1, b);
    var h2 := Fold(apply, h1, b);
    var c := if epochChanged then [EpochChanged] else [];
    FoldOne(apply, h2, c);
    FoldInTurn(apply, h, a, b);
    FoldInTurn(apply, h, a + b, c);
    steps := a + b + c;
  }

  lemma {:induction false} FoldOne(apply: (Host, Step) -> Host, h: Host, steps: seq<Step>)
    requires |steps| <= 1
    ensures Fold(apply, h, steps) == if steps == [] then h else apply(h, steps[0])
  {
    if steps != [] {
      assert steps == [] + [steps[0]];
      FoldLast(apply, h, [], steps[0]);
    }
  }

  ghost function EventSteps(events: seq<(DocId, Event)>): (steps: seq<Step>)
    ensures |steps| == |events| && forall i :: 0 <= i < |events| ==> steps[i] == SourceEvent(events[i].0, events[i].1)
  {
    seq(|events|, i requires 0 <= i < |events| => SourceEvent(events[i].0, events[i].1))
  }

  lemma {:induction false} EventsKeepDocuments(h: Host, events: seq<(DocId, Event)>)
    ensures EventedAll(h, events).registry.documents.Keys == h.registry.documents.Keys
    decreases |events|
  {
    if events != [] {
      var rest, e := events[..|events| - 1], events[|events| - 1];
      EventsKeepDocuments(h, rest);
      EventFrame(EventedAll(h, rest), e.0, e.1);
    }
  }

  lemma {:induction false} EventFolds(apply: (Host, Step) -> Host, h: Host, events: seq<(DocId, Event)>)
    requires DoesEvents(apply) && events != []
    requires var g := EventedAll(h, events[..|events| - 1]);
             && events[|events| - 1].0 in g.registry.documents
             && g == Fold(apply, h, EventSteps(events[..|events| - 1]))
    ensures EventedAll(h, events) == Fold(apply, h, EventSteps(events))
  {
    var n := |events| - 1;
    var step := SourceEvent(events[n].0, events[n].1);
    assert EventSteps(events) == EventSteps(events[..n]) + [step];
    FoldLast(apply, h, EventSteps(events[..n]), step);
    var g := EventedAll(h, events[..n]);
    assert EventedAll(h, events) == Evented(g, events[n].0, events[n].1);
    assert apply(g, step) == Evented(g, events[n].0, events[n].1);
  }

  /** Events name documents that stay open while the events are handled. */
  lemma {:induction false} EventsFold(apply: (Host, Step) -> Host, h: Host, events: seq<(DocId, Event)>)
    requires DoesEvents(apply) && forall i :: 0 <= i < |events| ==> events[i].0 in h.registry.documents
    ensures EventedAll(h, events) == Fold(apply, h, EventSteps(events))
    decreases |events|
  {
    if events != [] {
      var n := |events| - 1;
      EventsFold(apply, h, events[..n]);
      EventsKeepDocuments(h, events[..n]);
      EventFolds(apply, h, events);
    }
  }

  ghost function RefreshSteps(ids: seq<DocId>, failures: map<DocId, FileError>): (steps: seq<Step>)
    ensures |steps| == |ids|
    ensures forall i :: 0 <= i < |ids| ==> steps[i] == RefreshOne(ids[i], Outcome(failures, ids[i]))
  {
    seq(|ids|, i requires 0 <= i < |ids| => RefreshOne(ids[i], Outcome(failures, ids[i])))
  }

  lemma {:induction false} RefreshTakesOne(h: Host, id: DocId, failure: Option<FileError>)
    ensures h.refresh - {id} <= Refreshed(h, id, failure).refresh
  {}

  /** A try takes at most its own document off the queue. */
  lemma {:induction false} QueueShrinksInTurn(h: Host, ids: seq<DocId>, failures: map<DocId, FileError>)
    ensures h.refresh - Elements(ids) <= RefreshedAll(h, ids, failures).refresh
    decreases |ids|
  {
    if ids != [] {
      var n := |ids| - 1;
      var rest, id := ids[..n], ids[n];
      QueueShrinksInTurn(h, rest, failures);
      RefreshTakesOne(RefreshedAll(h, rest, failures), id, Outcome(failures, id));
      assert ids == rest + [id];
    }
  }

  /** Each document is still queued at its turn. */
  lemma {:induction false} StillQueued(h: Host, ids: seq<DocId>, n: nat, failures: map<DocId, FileError>)
    requires n < |ids| && NoRepeats(ids) && Elements(ids) <= h.refresh
    ensures ids[n] in RefreshedAll(h, ids[..n], failures).refresh
    ensures NoRepeats(ids[..n]) && Elements(ids[..n]) <= h.refresh
  {
    QueueShrinksInTurn(h, ids[..n], failures);
    assert ids[n] in Elements(ids);
    assert forall id :: id in ids[..n] ==> id in ids;
  }

  lemma {:induction false} RefreshesFold(apply: (Host, Step) -> Host, h: Host, ids: seq<DocId>,
                                         failures: map<DocId, FileError>)
    requires DoesRefreshes(apply) && NoRepeats(ids) && Elements(ids) <= h.refresh
    ensures RefreshedAll(h, ids, failures) == Fold(apply, h, RefreshSteps(ids, failures))
    decreases |ids|
  {
    if ids != [] {
      var n := |ids| - 1;
      StillQueued(h, ids, n, failures);
      RefreshesFold(apply, h, ids[..n], failures);
      RefreshFolds(apply, h, ids, failures);
    }
  }

  lemma {:induction false} RefreshStepsGrow(ids: seq<DocId>, failures: map<DocId, FileError>)
    requires ids != []
    ensures var n := |ids| - 1;
            RefreshSteps(ids, failures) ==
            RefreshSteps(ids[..n], failures) + [RefreshOne(ids[n], Outcome(failures, ids[n]))]
  {}

  lemma {:induction false} RefreshFolds(apply: (Host, Step) -> Host, h: Host, ids: seq<DocId>,
                                        failures: map<DocId, FileError>)
    requires DoesRefreshes(apply) && ids != []
    requires ids[|ids| - 1] in RefreshedAll(h, ids[..|ids| - 1], failures).refresh
    requires RefreshedAll(h, ids[..|ids| - 1], failures) == Fold(apply, h, RefreshSteps(ids[..|ids| - 1], failures))
    ensures RefreshedAll(h, ids, failures) == Fold(apply, h, RefreshSteps(ids, failures))
  {
    var n := |ids| - 1;
    var before, step := RefreshSteps(ids[..n], failures), RefreshOne(ids[n], Outcome(failures, ids[n]));
    RefreshStepsGrow(ids, failures);
    FoldLast(apply, h, before, step);
    var g := RefreshedAll(h, ids[..n], failures);
    assert RefreshedAll(h, ids, failures) == Refreshed(g, ids[n], Outcome(failures, ids[n]));
    assert apply(g, step) == Refreshed(g, ids[n], Outcome(failures, ids[n]));
  }

  lemma {:induction false} ApplyDoesOutside()
    ensures DoesOutside(Apply)
  {
    forall g, failure ensures Apply(g, Pick(failure)) == Picked(g, failure) {}
    forall g, s ensures Apply(g, OpenLoaded(s)) == OpeningLoaded(g, s).0 {}
    forall g ensures Apply(g, OpenFailed) == g.(opening := None) {}
    forall g ensures Apply(g, EpochChanged) == g.(refresh := g.refresh + g.sources.Keys) {}
  }

  lemma {:induction false} ApplyDoesEvents()
    ensures DoesEvents(Apply)
  {
    forall g: Host, id, event | id in g.registry.documents
      ensures Apply(g, SourceEvent(id, event)) == Evented(g, id, event)
    {
    }
  }

  lemma {:induction false} ApplyDoesRefreshes()
    ensures DoesRefreshes(Apply)
  {
    forall g: Host, id, failure | id in g.refresh
      ensures Apply(g, RefreshOne(id, failure)) == Refreshed(g, id, failure)
    {
    }
  }

  lemma {:induction false} OutsideKeepsInv(h: Host, picked: Option<Option<FileError>>,
                                           arrived: Option<Option<FileSnapshot>>, epochChanged: bool)
    requires Inv(h)
    ensures Inv(Outside(h, picked, arrived, epochChanged))
  {
    ApplyDoesOutside();
    var steps := OutsideFolds(Apply, h, picked, arrived, epochChanged);
    StepsKeepInv(h, steps);
  }

  lemma {:induction false} StepsKeepInv(h: Host, steps: seq<Step>)
    requires Inv(h)
    ensures Inv(Fold(Apply, h, steps))
  {
    forall g, step | Inv(g) ensures Inv(Apply(g, step)) {
      StepKeepsInv(g, step);
    }
    FoldKeepsInv(Apply, h, steps);
  }

  lemma {:induction false} PollFolds(apply: (Host, Step) -> Host, h: Host, outside: seq<Step>,
                                     events: seq<(DocId, Event)>, ids: seq<DocId>, failures: map<DocId, FileError>)
    requires DoesEvents(apply) && DoesRefreshes(apply)
    requires forall e :: e in events ==> e.0 in Fold(apply, h, outside).registry.documents
    requires NoRepeats(ids) && Elements(ids) <= EventedAll(Fold(apply, h, outside), events).refresh
    ensures Fold(apply, h, outside + EventSteps(events) + RefreshSteps(ids, failures)) ==
            RefreshedAll(EventedAll(Fold(apply, h, outside), events), ids, failures)
  {
    var middle := Fold(apply, h, outside);
    assert forall i :: 0 <= i < |events| ==> events[i] in events;
    EventsFold(apply, middle, events);
    FoldInTurn(apply, h, outside, EventSteps(events));
    RefreshesFold(apply, EventedAll(middle, events), ids, failures);
    FoldInTurn(apply, h, outside + EventSteps(events), RefreshSteps(ids, failures));
  }

  /** Whatever arrives, a poll is a run of host steps: at most three for what comes from outside, then one for each
      event in order, then one for each queued refresh. */
  lemma {:induction false} PollIsSteps(h: Host, picked: Option<Option<FileError>>,
                                       arrived: Option<Option<FileSnapshot>>, epochChanged: bool,
                                       sourceIds: seq<DocId>, queued: map<DocId, seq<Event>>,
                                       ids: seq<DocId>, failures: map<DocId, FileError>)
    returns (outside: seq<Step>)
    requires Inv(h) && PollOrders(h, picked, arrived, epochChanged, sourceIds, queued, ids)
    ensures ApplyAll(h, outside) == Outside(h, picked, arrived, epochChanged)
    ensures ApplyAll(h, outside + EventSteps(Gathered(sourceIds, queued)) + RefreshSteps(ids, failures)) ==
            Polled(h, picked, arrived, epochChanged, sourceIds, queued, ids, failures)
  {
    ApplyDoesOutside();
    ApplyDoesEvents();
    ApplyDoesRefreshes();
    outside := OutsideFolds(Apply, h, picked, arrived, epochChanged);
    OutsideKeepsInv(h, picked, arrived, epochChanged);
    GatheredFromSources(sourceIds, queued);
    PollFolds(Apply, h, outside, Gathered(sourceIds, queued), ids, failures);
  }

  lemma {:induction false} PolledKeepsInv(h: Host, picked: Option<Option<FileError>>,
                                          arrived: Option<Option<FileSnapshot>>, epochChanged: bool,
                                          sourceIds: seq<DocId>, queued: map<DocId, seq<Event>>,
                                          ids: seq<DocId>, failures: map<DocId, FileError>)
    requires Inv(h) && PollOrders(h, picked, arrived, epochChanged, sourceIds, queued, ids)
    ensures Inv(Polled(h, picked, arrived, epochChanged, sourceIds, queued, ids, failures))
  {
    var outside := PollIsSteps(h, picked, arrived, epochChanged, sourceIds, queued, ids, failures);
    StepsKeepInv(h, outside + EventSteps(Gathered(sourceIds, queued)) + RefreshSteps(ids, failures));
  }
}
