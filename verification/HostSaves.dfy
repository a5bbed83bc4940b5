/**
 Runs of the document host, and what they promise about saves: numbers that only grow, receipts that
 settle exactly the save they name, and the one event after which a save is never settled.
 */
module HostSaves {
  import opened Registry
  import opened HostSteps
  import opened HostFrames
  import opened HostInvariant

  /** A host from its start, with any events in any order. */
  ghost predicate Run(trace: seq<Host>, steps: seq<Step>) {
    && |trace| == |steps| + 1
    && trace[0] == Started(trace[0].nextTab)
    && forall i {:trigger Linked(trace, steps, i)} :: 0 <= i < |steps| ==> Linked(trace, steps, i)
  }

  ghost predicate Linked(trace: seq<Host>, steps: seq<Step>, i: nat)
    requires i < |steps| && i + 1 < |trace|
  {
    trace[i + 1] == Apply(trace[i], steps[i])
  }

  /** No handle ever dangles, and no source ever reads and saves at once. */
  lemma {:induction false} RunKeepsInv(trace: seq<Host>, steps: seq<Step>, k: nat)
    requires Run(trace, steps) && k < |trace|
    ensures Inv(trace[k])
  {
    if k == 0 {
      StartsGood(trace[0].nextTab);
    } else {
      RunKeepsInv(trace, steps, k - 1);
      assert Linked(trace, steps, k - 1);
      StepKeepsInv(trace[k - 1], steps[k - 1]);
    }
  }

  /** A run can go on with any step. */
  lemma {:induction false} OneStepMore(hosts: seq<Host>, steps: seq<Step>, step: Step)
    returns (hosts': seq<Host>, steps': seq<Step>)
    requires Run(hosts, steps)
    ensures Run(hosts', steps') && |steps'| == |steps| + 1
    ensures hosts'[|steps'|] == Apply(hosts[|steps|], step)
    ensures hosts'[..|hosts|] == hosts && steps' == steps + [step]
  {
    hosts', steps' := hosts + [Apply(hosts[|steps|], step)], steps + [step];
    forall i | 0 <= i < |steps'| ensures Linked(hosts', steps', i) {
      if i < |steps| {
        assert Linked(hosts, steps, i);
      }
    }
  }

  // ----- save numbers -----

  function InFlight(h: Host, id: DocId): Option<(nat, SaveTicket)> {
    if id in h.sources then h.sources[id].save else None
  }

  /** Nothing starts to save. */
  ghost predicate NoNewSave(h: Host, h': Host) {
    && h'.operation == h.operation
    && h'.registry.nextOperation >= h.registry.nextOperation
    && forall id :: InFlight(h', id).Some? ==> InFlight(h', id) == InFlight(h, id)
  }

  lemma {:induction false} CloseStartsNoSave(h: Host, view: ViewId, discard: bool)
    ensures NoNewSave(h, ViewClosedBy(h, view, discard))
  {}

  lemma {:induction false} AttachStartsNoSave(h: Host, existing: map<DocId, ReadTicket>, s: FileSnapshot)
    ensures NoNewSave(h, Attached(h, existing, s).0)
  {
    if s.key.Some? {
      JoinKeepsCounter(h.registry, existing, s.key.value, s);
    }
  }

  lemma {:induction false} JoinKeepsCounter(r: Documents, existing: map<DocId, ReadTicket>, key: Key, s: FileSnapshot)
    ensures Joining(r, existing, key, s).0.nextOperation == r.nextOperation
  {}

  lemma {:induction false} ReadStartsNoSave(h: Host, id: DocId, t: ReadTicket, s: FileSnapshot)
    ensures NoNewSave(h, ReadArrived(h, id, t, s)) && ReadArrived(h, id, t, s).sources == h.sources
  {}

  lemma {:induction false} BlameStartsNoSave(h: Host, id: DocId, failure: FileError)
    ensures NoNewSave(h, Blamed(h, id, failure))
  {}

  lemma {:induction false} FailureStartsNoSave(h: Host, id: DocId, t: SaveTicket, failure: FileError)
    ensures NoNewSave(h, FailureSettled(h, id, t, failure))
  {
    BlameStartsNoSave(h.(registry := FailSave(h.registry, t).0), id, failure);
  }

  lemma {:induction false} RefusalStartsNoSave(h: Host, id: DocId, number: nat, failure: FileError)
    ensures NoNewSave(h, SaveRefused(h, id, number, failure))
  {
    var h0 := if h.saveClose.Some? && h.saveClose.value.1 == number then h.(saveClose := None) else h;
    var (taken, t) := SaveTaken(h0, id, number);
    if t.Some? {
      FailureStartsNoSave(taken, id, t.value, failure);
    }
  }

  lemma {:induction false} EventStartsNoSave(h: Host, id: DocId, event: Event)
    ensures NoNewSave(h, Evented(h, id, event))
  {
    match event
    case Loaded(s) =>
      if id in h.sources && h.sources[id].read.Some? {
        ReadStartsNoSave(ReadTaken(h, id), id, h.sources[id].read.value, s);
      }
    case Saved(number, version) =>
    case SaveFailed(number, failure) => RefusalStartsNoSave(h, id, number, failure);
    case Gone =>
  }

  lemma {:induction false} RefreshStartsNoSave(h: Host, id: DocId, failure: Option<FileError>)
    ensures NoNewSave(h, Refreshed(h, id, failure))
  {}

  lemma {:induction false} PlainStartsNoSave(h: Host, step: Step)
    requires Small(step) || IsEdit(step)
    ensures NoNewSave(h, Apply(h, step))
  {
    if IsEdit(step) {
      assert Apply(h, step).sources == h.sources;
    } else {
      SmallFrame(h, step);
    }
  }

  /** The document whose save the step starts, if there is one. */
  ghost predicate NewSave(h: Host, h': Host, started: DocId) {
    && h'.operation == h.operation + 1
    && h'.registry.nextOperation > h.registry.nextOperation
    && started in h.sources && InFlight(h, started).None? && InFlight(h', started).Some?
    && InFlight(h', started).value.0 == h'.operation
    && InFlight(h', started).value.1.operation == h'.registry.nextOperation
    && forall id :: id != started && InFlight(h', id).Some? ==> InFlight(h', id) == InFlight(h, id)
  }

  lemma {:induction false} SaveStartsOne(h: Host, view: ViewId, fits: bool, failure: Option<FileError>)
    returns (started: Option<DocId>)
    requires Inv(h)
    ensures started.None? ==> NoNewSave(h, SaveStarted(h, view, fits, failure))
    ensures started.None? ==> SaveStarted(h, view, fits, failure).sources == h.sources
    ensures started.Some? ==> NewSave(h, SaveStarted(h, view, fits, failure), started.value)
    ensures started.Some? ==> view in h.registry.views && started.value == h.registry.views[view]
  {
    var t := SaveOutcome(h, view, fits, failure);
    started := if t.Some? then Some(h.registry.views[view]) else None;
  }

  /** What is pending to close does not matter to saves. */
  lemma {:induction false} SaveCloseAside(h: Host, h': Host, pending: Option<(ViewId, nat)>)
    ensures NoNewSave(h, h') ==> NoNewSave(h, h'.(saveClose := pending))
    ensures forall id :: NewSave(h, h', id) ==> NewSave(h, h'.(saveClose := pending), id)
  {
    assert forall id :: InFlight(h'.(saveClose := pending), id) == InFlight(h', id);
  }

  lemma {:induction false} SavePressStartsOne(h: Host, fits: bool, failure: Option<FileError>)
    returns (started: Option<DocId>)
    requires Inv(h) && SaveEnabled(h)
    ensures started.None? ==> NoNewSave(h, SheetPressed(h, SavePressed(fits, failure)))
    ensures started.Some? ==> NewSave(h, SheetPressed(h, SavePressed(fits, failure)), started.value)
  {
    SavePressOutcome(h, fits, failure);
    started := SaveStartsOne(h, h.close.value, fits, failure);
    SaveCloseAside(h, SaveStarted(h, h.close.value, fits, failure),
                   SheetPressed(h, SavePressed(fits, failure)).saveClose);
  }

  lemma {:induction false} PressStartsOne(h: Host, press: Press) returns (started: Option<DocId>)
    requires Inv(h)
    ensures started.None? ==> NoNewSave(h, SheetPressed(h, press))
    ensures started.Some? ==> NewSave(h, SheetPressed(h, press), started.value)
    ensures started.Some? ==> press.SavePressed?
  {
    started := None;
    if h.close.Some? {
      match press
      case SavePressed(fits, failure) =>
        ShownViewsHaveDocuments(h.registry, h.close.value);
        if !Saving(h, h.close.value) {
          started := SavePressStartsOne(h, fits, failure);
        }
      case DiscardPressed => CloseStartsNoSave(h, h.close.value, true);
      case CancelPressed =>
      case Nothing =>
    }
  }

  lemma {:induction false} ClosingStartsOne(h: Host, step: Step) returns (started: Option<DocId>)
    requires Inv(h) && Closes(step)
    ensures started.None? ==> NoNewSave(h, Apply(h, step))
    ensures started.Some? ==> NewSave(h, Apply(h, step), started.value)
    ensures started.Some? ==> step.PressSheet? && step.press.SavePressed?
  {
    started := None;
    match step
    case TakeRequest =>
      if h.closeRequested.Some? { CloseStartsNoSave(h.(closeRequested := None), h.closeRequested.value, false); }
    case PressSheet(press) => started := PressStartsOne(h, press);
    case CloseTab(tab) =>
      if ViewAt(h.views, tab).Some? { CloseStartsNoSave(h, ViewAt(h.views, tab).value, false); }
  }

  lemma {:induction false} FilesStartOne(h: Host, step: Step) returns (started: Option<DocId>)
    requires Inv(h) && Files(step)
    ensures started.None? ==> NoNewSave(h, Apply(h, step))
    ensures started.Some? ==> NewSave(h, Apply(h, step), started.value)
    ensures started.Some? ==> step.Save?
  {
    started := None;
    match step
    case OpenLoaded(s) =>
      if h.opening.Some? { AttachStartsNoSave(h.(opening := None), h.opening.value, s); }
    case SourceEvent(id, event) => EventStartsNoSave(h, id, event);
    case RefreshOne(id, failure) => RefreshStartsNoSave(h, id, failure);
    case Save(view, fits, failure) => started := SaveStartsOne(h, view, fits, failure);
    case Duplicate(view) =>
  }

  /** A step starts at most one save; it takes the next number. */
  lemma {:induction false} StepStartsOne(h: Host, step: Step) returns (started: Option<DocId>)
    requires Inv(h)
    ensures started.None? ==> NoNewSave(h, Apply(h, step))
    ensures started.Some? ==> NewSave(h, Apply(h, step), started.value)
    ensures started.Some? ==> step.Save? || (step.PressSheet? && step.press.SavePressed?)
  {
    started := None;
    if Closes(step) {
      started := ClosingStartsOne(h, step);
    } else if Files(step) {
      started := FilesStartOne(h, step);
    } else {
      PlainStartsNoSave(h, step);
    }
  }

  lemma {:induction false} RunStartsOne(trace: seq<Host>, steps: seq<Step>, i: nat) returns (started: Option<DocId>)
    requires Run(trace, steps) && i < |steps|
    ensures started.None? ==> NoNewSave(trace[i], trace[i + 1])
    ensures started.Some? ==> NewSave(trace[i], trace[i + 1], started.value)
  {
    RunKeepsInv(trace, steps, i);
    assert Linked(trace, steps, i);
    started := StepStartsOne(trace[i], steps[i]);
  }

  lemma {:induction false} NumbersGrow(trace: seq<Host>, steps: seq<Step>, i: nat, j: nat)
    requires Run(trace, steps) && i <= j < |trace|
    ensures trace[i].operation <= trace[j].operation
    ensures trace[i].registry.nextOperation <= trace[j].registry.nextOperation
    decreases j
  {
    if i < j {
      NumbersGrow(trace, steps, i, j - 1);
      var _ := RunStartsOne(trace, steps, j - 1);
    }
  }

  /** The step starts a save of `id` with this number. */
  predicate StartsSave(h: Host, h': Host, id: DocId, number: nat) {
    InFlight(h', id).Some? && InFlight(h', id) != InFlight(h, id) && InFlight(h', id).value.0 == number
  }

  /** In-flight save numbers strictly increase over the whole run, whatever document they are for. */
  lemma {:induction false} SaveNumbersIncrease(trace: seq<Host>, steps: seq<Step>, i: nat, j: nat, a: DocId, m: nat,
                                               b: DocId, n: nat)
    requires Run(trace, steps) && i < j < |steps|
    requires StartsSave(trace[i], trace[i + 1], a, m) && StartsSave(trace[j], trace[j + 1], b, n)
    ensures m < n
  {
    var _ := RunStartsOne(trace, steps, i);
    var _ := RunStartsOne(trace, steps, j);
    NumbersGrow(trace, steps, i + 1, j);
  }

  lemma {:induction false} InFlightNumber(trace: seq<Host>, steps: seq<Step>, k: nat, id: DocId)
    requires Run(trace, steps) && k < |trace| && InFlight(trace[k], id).Some?
    ensures InFlight(trace[k], id).value.0 <= trace[k].operation
    ensures InFlight(trace[k], id).value.1.document == id
  {
    RunKeepsInv(trace, steps, k);
    assert GoodSource(trace[k].registry, trace[k].operation, id, trace[k].sources[id]);
  }

  /** Two saves in flight at the same time never share a number. */
  lemma {:induction false} InFlightNumbersDiffer(trace: seq<Host>, steps: seq<Step>, k: nat, a: DocId, b: DocId)
    requires Run(trace, steps) && k < |trace| && a != b
    requires InFlight(trace[k], a).Some? && InFlight(trace[k], b).Some?
    ensures InFlight(trace[k], a).value.0 != InFlight(trace[k], b).value.0
  {
    if k > 0 {
      var started := RunStartsOne(trace, steps, k - 1);
      if started == Some(a) {
        InFlightNumber(trace, steps, k - 1, b);
      } else if started == Some(b) {
        InFlightNumber(trace, steps, k - 1, a);
      } else {
        InFlightNumbersDiffer(trace, steps, k - 1, a, b);
      }
    }
  }

  // ----- receipts -----

  /** A receipt with another number is refused: the editor state stays as it is.  A refused failure may
      only drop a pending save-then-close. */
  lemma {:induction false} OtherReceiptsAreRefused(h: Host, id: DocId, number: nat, version: Version,
                                                   failure: FileError)
    requires InFlight(h, id).Some? ==> InFlight(h, id).value.0 != number
    ensures Apply(h, SourceEvent(id, Saved(number, version))) == h
    ensures var h' := Apply(h, SourceEvent(id, SaveFailed(number, failure)));
            h' == h.(saveClose := h'.saveClose) && h'.saveClose in {h.saveClose, None}
  {}

  /** The receipt of the save in flight is always accepted: the document is saved up to the point of the
      ticket, every other document stays, and nothing is in flight any more. */
  lemma {:induction false} MatchingReceiptIsAccepted(h: Host, id: DocId, number: nat, t: SaveTicket, version: Version)
    requires Inv(h) && InFlight(h, id) == Some((number, t))
    ensures id in h.registry.documents
    ensures var h' := Apply(h, SourceEvent(id, Saved(number, version)));
            && h'.registry == With(h.registry, id, h.registry.documents[id].(savedPoint := t.point, version := version,
                                                                               conflict := None, saving := None))
            && InFlight(h', id).None? && h'.refresh == h.refresh
  {
    TakenReceiptHolds(h, id, number);
  }

  lemma {:induction false} BlameOutcome(h: Host, id: DocId, failure: FileError)
    requires id in h.registry.documents && h.registry.documents[id].saving.None? && InFlight(h, id).None?
    ensures var h' := Blamed(h, id, failure);
            && id in h'.registry.documents && h'.registry.documents[id].saving.None? && InFlight(h', id).None?
            && Dirty(h'.registry.documents[id]) == Dirty(h.registry.documents[id])
            && (failure.Changed? ==> id in h'.refresh)
            && (failure.FileUnavailable? ==> id !in h'.sources && !h'.registry.documents[id].available)
            && (failure.FileReadOnly? ==> !Writable(h'.registry.documents[id]))
  {}

  /** The failure of the save in flight is always accepted too; unsaved text stays unsaved. */
  lemma {:induction false} MatchingFailureIsAccepted(h: Host, id: DocId, number: nat, t: SaveTicket, failure: FileError)
    requires Inv(h) && InFlight(h, id) == Some((number, t))
    ensures id in h.registry.documents
    ensures var h' := Apply(h, SourceEvent(id, SaveFailed(number, failure)));
            && id in h'.registry.documents && h'.registry.documents[id].saving.None? && InFlight(h', id).None?
            && Dirty(h'.registry.documents[id]) == Dirty(h.registry.documents[id])
            && (failure.Changed? ==> id in h'.refresh)
            && (failure.FileUnavailable? ==> id !in h'.sources && !h'.registry.documents[id].available)
            && (failure.FileReadOnly? ==> !Writable(h'.registry.documents[id]))
  {
    TakenReceiptHolds(h, id, number);
    BlameOutcome(AfterFailure(h, id, number), id, failure);
    FailureIsBlamed(h, id, number, t, failure);
  }

  ghost function AfterFailure(h: Host, id: DocId, number: nat): Host
    requires id in h.sources && id in h.registry.documents
  {
    h.(sources := h.sources[id := h.sources[id].(save := None)],
       registry := With(h.registry, id, h.registry.documents[id].(saving := None)),
       saveClose := if h.saveClose.Some? && h.saveClose.value.1 == number then None else h.saveClose)
  }

  lemma {:induction false} FailureIsBlamed(h: Host, id: DocId, number: nat, t: SaveTicket, failure: FileError)
    requires InFlight(h, id) == Some((number, t)) && t.document == id && Holds(h.registry, t)
    ensures Apply(h, SourceEvent(id, SaveFailed(number, failure))) == Blamed(AfterFailure(h, id, number), id, failure)
  {}

  /** The step finishes or fails this ticket. */
  predicate Settles(h: Host, step: Step, t: SaveTicket) {
    step.SourceEvent? && (step.event.Saved? || step.event.SaveFailed?)
    && InFlight(h, step.id) == Some((step.event.operation, t))
  }

  predicate Spent(h: Host, t: SaveTicket) {
    && t.operation <= h.registry.nextOperation
    && (InFlight(h, t.document).Some? ==> InFlight(h, t.document).value.1.operation != t.operation)
  }

  lemma {:induction false} SettlingSpends(h: Host, step: Step, t: SaveTicket)
    requires Inv(h) && Settles(h, step, t)
    ensures Spent(Apply(h, step), t)
  {
    var (id, number) := (step.id, step.event.operation);
    TakenReceiptHolds(h, id, number);
    if step.event.Saved? {
      MatchingReceiptIsAccepted(h, id, number, t, step.event.version);
    } else {
      MatchingFailureIsAccepted(h, id, number, t, step.event.failure);
    }
    EventStartsNoSave(h, id, step.event);
  }

  lemma {:induction false} SpentStaysSpent(trace: seq<Host>, steps: seq<Step>, i: nat, j: nat, t: SaveTicket)
    requires Run(trace, steps) && i <= j < |trace| && Spent(trace[i], t)
    ensures Spent(trace[j], t)
    decreases j
  {
    if i < j {
      SpentStaysSpent(trace, steps, i, j - 1, t);
      var _ := RunStartsOne(trace, steps, j - 1);
    }
  }

  lemma {:induction false} SpentAfterSettling(trace: seq<Host>, steps: seq<Step>, i: nat, t: SaveTicket)
    requires Run(trace, steps) && i < |steps| && Settles(trace[i], steps[i], t)
    ensures Spent(trace[i + 1], t)
  {
    RunKeepsInv(trace, steps, i);
    assert Linked(trace, steps, i);
    SettlingSpends(trace[i], steps[i], t);
  }

  /** Over a whole run, a prepared ticket is finished or failed at most once. */
  lemma {:induction false} SettledAtMostOnce(trace: seq<Host>, steps: seq<Step>, i: nat, j: nat, t: SaveTicket)
    requires Run(trace, steps) && i < |steps| && j < |steps|
    requires Settles(trace[i], steps[i], t) && Settles(trace[j], steps[j], t)
    ensures i == j
  {
    if i != j {
      var a, b := if i < j then i else j, if i < j then j else i;
      SpentAfterSettling(trace, steps, a, t);
      SpentStaysSpent(trace, steps, a + 1, b, t);
      InFlightNumber(trace, steps, b, steps[b].id);
    }
  }
}
