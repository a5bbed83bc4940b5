/**
 Closing views over whole runs: saving from the close sheet closes the view only on the receipt of that
 very save, and unsaved text is dropped only when it is discarded.
 */
module HostClosing {
  import opened Registry
  import opened HostSteps
  import opened HostFrames
  import opened HostInvariant
  import opened HostSaves

  // ----- views keep their document -----

  /** A view that survives a step shows the same document. */
  ghost predicate Agree(r: Documents, r': Documents) {
    forall v :: v in r.views && v in r'.views ==> r'.views[v] == r.views[v]
  }

  lemma {:induction false} JoinAgrees(r: Documents, existing: map<DocId, ReadTicket>, key: Key, s: FileSnapshot)
    requires ValidIds(r)
    ensures Agree(r, Joining(r, existing, key, s).0)
            && r.documents.Keys <= Joining(r, existing, key, s).0.documents.Keys
  {
    var (r0, attempt) := Open(r, key, s.content, s.writable);
    assert Agree(r, r0) && r.documents.Keys <= r0.documents.Keys;
    if attempt.Ok? {
      var id := r0.views[attempt.value];
      var r1 := if key in r.origins && id in existing then Observe(r0, existing[id], s.content).0 else r0;
      if key in r.origins && id in existing {
        ObserveShape(r0, existing[id], s.content);
      }
      AccessShape(r1, id, true, s.writable);
    }
  }

  lemma {:induction false} AttachAgrees(h: Host, existing: map<DocId, ReadTicket>, s: FileSnapshot)
    requires ValidIds(h.registry)
    ensures Agree(h.registry, Attached(h, existing, s).0.registry)
    ensures h.registry.documents.Keys <= Attached(h, existing, s).0.registry.documents.Keys
    ensures Attached(h, existing, s).0.saveClose == h.saveClose
  {
    if s.key.Some? {
      JoinAgrees(h.registry, existing, s.key.value, s);
    }
  }

  lemma {:induction false} DuplicateAgrees(h: Host, view: ViewId)
    requires ValidIds(h.registry)
    ensures Agree(h.registry, Duplicated(h, view).registry)
            && Duplicated(h, view).registry.documents == h.registry.documents
    ensures Duplicated(h, view).saveClose == h.saveClose
  {}

  lemma {:induction false} CloseAgrees(h: Host, view: ViewId, discard: bool)
    ensures Agree(h.registry, ViewClosedBy(h, view, discard).registry)
    ensures ViewClosedBy(h, view, discard).saveClose in {h.saveClose, None}
  {}

  lemma {:induction false} PressAgrees(h: Host, press: Press)
    ensures Agree(h.registry, SheetPressed(h, press).registry)
  {
    match press
    case SavePressed(fits, failure) => SavePressFrame(h, fits, failure);
    case DiscardPressed =>
      if h.close.Some? { CloseAgrees(h, h.close.value, true); }
    case _ =>
  }

  /** What every step but a closing one does for the views: none goes, none changes its document. */
  ghost predicate KeepsOpen(h: Host, h': Host) {
    && Agree(h.registry, h'.registry) && h.registry.documents.Keys <= h'.registry.documents.Keys
    && h'.saveClose in {h.saveClose, None}
  }

  lemma {:induction false} FilesKeepOpen(h: Host, step: Step)
    requires ValidIds(h.registry) && Files(step)
    ensures KeepsOpen(h, Apply(h, step))
  {
    match step
    case OpenLoaded(s) =>
      if h.opening.Some? { AttachAgrees(h.(opening := None), h.opening.value, s); }
    case SourceEvent(id, event) => EventFrame(h, id, event);
    case RefreshOne(id, failure) => RefreshFrame(h, id, failure);
    case Save(v, fits, failure) => SaveFrame(h, v, fits, failure);
    case Duplicate(view) => DuplicateAgrees(h, view);
  }

  lemma {:induction false} OthersKeepOpen(h: Host, step: Step)
    requires ValidIds(h.registry) && !Closes(step)
    ensures KeepsOpen(h, Apply(h, step))
  {
    if Files(step) {
      FilesKeepOpen(h, step);
    } else if IsEdit(step) {
      EditFrame(h, step);
    } else {
      SmallFrame(h, step);
    }
  }

  lemma {:induction false} ClosingAgrees(h: Host, step: Step)
    requires Closes(step)
    ensures Agree(h.registry, Apply(h, step).registry)
    ensures !step.PressSheet? ==> Apply(h, step).saveClose in {h.saveClose, None}
  {
    match step
    case TakeRequest =>
      if h.closeRequested.Some? { CloseAgrees(h.(closeRequested := None), h.closeRequested.value, false); }
    case CloseTab(tab) =>
      if ViewAt(h.views, tab).Some? { CloseAgrees(h, ViewAt(h.views, tab).value, false); }
    case PressSheet(press) => PressAgrees(h, press);
  }

  lemma {:induction false} ViewsKeepTheirDocument(h: Host, step: Step)
    requires ValidIds(h.registry)
    ensures Agree(h.registry, Apply(h, step).registry)
  {
    if Closes(step) {
      ClosingAgrees(h, step);
    } else {
      OthersKeepOpen(h, step);
    }
  }

  // ----- save, then close -----

  /** Save was pressed in the close sheet of `view`, and that started the save `number` of its document. */
  predicate SavedFromSheet(h: Host, step: Step, h': Host, view: ViewId, number: nat) {
    && step.PressSheet? && step.press.SavePressed? && h.close == Some(view)
    && view in h.registry.views && view in h'.registry.views
    && InFlight(h, h.registry.views[view]).None? && InFlight(h', h.registry.views[view]).Some?
    && InFlight(h', h.registry.views[view]).value.0 == number == h.operation + 1
    && h'.saveClose == Some((view, number))
  }

  /** The user cancels the sheet, the save fails, or the view is closed. */
  predicate Abandons(h: Host, step: Step, h': Host, view: ViewId, number: nat) {
    Cancels(h, step) || Fails(h, step, number) || (view in h.registry.views && view !in h'.registry.views)
  }

  predicate Cancels(h: Host, step: Step) {
    step.PressSheet? && step.press.CancelPressed? && h.close.Some?
  }

  predicate Fails(h: Host, step: Step, number: nat) {
    step.SourceEvent? && step.event.SaveFailed? && step.event.operation == number && step.id in h.registry.documents
  }

  lemma {:induction false} AbandoningClears(h: Host, step: Step, view: ViewId, number: nat)
    requires Inv(h) && Abandons(h, step, Apply(h, step), view, number)
    ensures Apply(h, step).saveClose != Some((view, number))
  {
    if Cancels(h, step) {
      CancelClears(h);
    } else if Fails(h, step, number) {
      RefusalFrame(h, step.id, number, step.event.failure);
    } else {
      ClosedIsNotPending(h, step, view);
    }
  }

  lemma {:induction false} CancelClears(h: Host)
    requires Inv(h) && h.close.Some?
    ensures SheetPressed(h, CancelPressed).saveClose.None?
  {
    ShownViewsHaveDocuments(h.registry, h.close.value);
  }

  lemma {:induction false} ClosedIsNotPending(h: Host, step: Step, view: ViewId)
    requires Inv(h) && view !in Apply(h, step).registry.views
    ensures Apply(h, step).saveClose.Some? ==> Apply(h, step).saveClose.value.0 != view
  {
    StepKeepsInv(h, step);
  }

  /** A pending save-then-close comes from the sheet of its view, or it was pending before the step. */
  lemma {:induction false} PendingComesFromSheet(h: Host, step: Step, view: ViewId, number: nat)
    requires Inv(h) && Apply(h, step).saveClose == Some((view, number))
    ensures h.saveClose == Some((view, number)) || SavedFromSheet(h, step, Apply(h, step), view, number)
  {
    if step.PressSheet? {
      PressPends(h, step.press, view, number);
    } else if Closes(step) {
      ClosingAgrees(h, step);
    } else {
      OthersKeepOpen(h, step);
    }
  }

  lemma {:induction false} PressPends(h: Host, press: Press, view: ViewId, number: nat)
    requires Inv(h) && SheetPressed(h, press).saveClose == Some((view, number))
    ensures h.saveClose == Some((view, number))
            || SavedFromSheet(h, PressSheet(press), SheetPressed(h, press), view, number)
  {
    if h.close.Some? {
      ShownViewsHaveDocuments(h.registry, h.close.value);
      match press
      case SavePressed(fits, failure) =>
        if SaveEnabled(h) { SavePressPends(h, fits, failure, view, number); }
      case DiscardPressed => CloseAgrees(h, h.close.value, true);
      case _ =>
    }
  }

  lemma {:induction false} SavePressPends(h: Host, fits: bool, failure: Option<FileError>, view: ViewId, number: nat)
    requires Inv(h) && SaveEnabled(h)
    requires SheetPressed(h, SavePressed(fits, failure)).saveClose == Some((view, number))
    ensures var press := SavePressed(fits, failure);
            h.saveClose == Some((view, number))
            || SavedFromSheet(h, PressSheet(press), SheetPressed(h, press), view, number)
  {
    SavePressOutcome(h, fits, failure);
    SaveFrame(h, h.close.value, fits, failure);
    var started := SaveStartsOne(h, h.close.value, fits, failure);
    if started.None? {
      UnstartedIsNotSaving(h, fits, failure);
    }
  }

  lemma {:induction false} UnstartedIsNotSaving(h: Host, fits: bool, failure: Option<FileError>)
    requires SaveEnabled(h) && SaveStarted(h, h.close.value, fits, failure).operation == h.operation
    ensures !Saving(SaveStarted(h, h.close.value, fits, failure), h.close.value)
  {}

  /** The save of step `j` from the sheet of `view` is still the one pending at `k`, with no cancel,
      failure or close in between. */
  ghost predicate PendingSince(trace: seq<Host>, steps: seq<Step>, j: nat, k: nat, view: ViewId, number: nat)
    requires Run(trace, steps) && j < k < |trace|
  {
    && SavedFromSheet(trace[j], steps[j], trace[j + 1], view, number)
    && (forall i :: j < i <= k ==> trace[i].saveClose == Some((view, number)))
    && (forall i :: j < i < k ==> !Abandons(trace[i], steps[i], trace[i + 1], view, number))
    && (forall i :: j <= i <= k ==>
          view in trace[i].registry.views && trace[i].registry.views[view] == trace[j].registry.views[view])
  }

  lemma {:induction false} StillPending(h: Host, step: Step, view: ViewId, number: nat)
    requires Inv(h) && view in h.registry.views && Apply(h, step).saveClose == Some((view, number))
    ensures !Abandons(h, step, Apply(h, step), view, number)
    ensures view in Apply(h, step).registry.views && Apply(h, step).registry.views[view] == h.registry.views[view]
  {
    if Abandons(h, step, Apply(h, step), view, number) {
      AbandoningClears(h, step, view, number);
    }
    ViewsKeepTheirDocument(h, step);
  }

  lemma {:induction false} PendingOneMore(trace: seq<Host>, steps: seq<Step>, j: nat, k: nat, view: ViewId, number: nat)
    requires Run(trace, steps) && j < k < |steps| && PendingSince(trace, steps, j, k, view, number)
    requires trace[k + 1].saveClose == Some((view, number))
    ensures PendingSince(trace, steps, j, k + 1, view, number)
  {
    StillPendingAt(trace, steps, k, view, number);
  }

  lemma {:induction false} StillPendingAt(trace: seq<Host>, steps: seq<Step>, k: nat, view: ViewId, number: nat)
    requires Run(trace, steps) && k < |steps| && view in trace[k].registry.views
             && trace[k + 1].saveClose == Some((view, number))
    ensures !Abandons(trace[k], steps[k], trace[k + 1], view, number)
    ensures view in trace[k + 1].registry.views && trace[k + 1].registry.views[view] == trace[k].registry.views[view]
  {
    RunKeepsInv(trace, steps, k);
    assert Linked(trace, steps, k);
    StillPending(trace[k], steps[k], view, number);
  }

  lemma {:induction false} PendingStarts(trace: seq<Host>, steps: seq<Step>, j: nat, view: ViewId, number: nat)
    requires Run(trace, steps) && j < |steps| && SavedFromSheet(trace[j], steps[j], trace[j + 1], view, number)
    ensures PendingSince(trace, steps, j, j + 1, view, number)
  {
    RunKeepsInv(trace, steps, j);
    assert Linked(trace, steps, j);
    ViewsKeepTheirDocument(trace[j], steps[j]);
  }

  lemma {:induction false} PendingSource(trace: seq<Host>, steps: seq<Step>, k: nat, view: ViewId, number: nat)
    requires Run(trace, steps) && k < |trace| && trace[k].saveClose == Some((view, number))
    ensures k > 0
    ensures trace[k - 1].saveClose == Some((view, number))
            || SavedFromSheet(trace[k - 1], steps[k - 1], trace[k], view, number)
  {
    RunKeepsInv(trace, steps, k - 1);
    assert Linked(trace, steps, k - 1);
    PendingComesFromSheet(trace[k - 1], steps[k - 1], view, number);
  }

  lemma {:induction false} PendingOrigin(trace: seq<Host>, steps: seq<Step>, k: nat, view: ViewId, number: nat)
    returns (j: nat)
    requires Run(trace, steps) && k < |trace| && trace[k].saveClose == Some((view, number))
    ensures j < k && PendingSince(trace, steps, j, k, view, number)
  {
    PendingSource(trace, steps, k, view, number);
    if trace[k - 1].saveClose == Some((view, number)) {
      j := PendingOrigin(trace, steps, k - 1, view, number);
      PendingOneMore(trace, steps, j, k - 1, view, number);
    } else {
      j := k - 1;
      PendingStarts(trace, steps, j, view, number);
    }
  }

  /** A file event makes the host ask to close `view`. */
  predicate AsksToClose(h: Host, step: Step, h': Host, view: ViewId) {
    step.SourceEvent? && h'.closeRequested == Some(view) && h.closeRequested != Some(view)
  }

  /** Over every run: a file event asks to close a view only as the accepted receipt of the very save that was
      started from that view's close sheet, with no cancel, failure or close of the view since. */
  lemma {:induction false} SaveThenCloseIsSafe(trace: seq<Host>, steps: seq<Step>, k: nat, view: ViewId)
    returns (j: nat, number: nat)
    requires Run(trace, steps) && k < |steps| && AsksToClose(trace[k], steps[k], trace[k + 1], view)
    ensures steps[k].event.Saved? && steps[k].event.operation == number
    ensures j < k && PendingSince(trace, steps, j, k, view, number)
    ensures steps[k].id == trace[j].registry.views[view]
    ensures InFlight(trace[k], steps[k].id).Some? && InFlight(trace[k], steps[k].id).value.0 == number
    ensures InFlight(trace[k + 1], steps[k].id).None?
  {
    ReceiptAsks(trace, steps, k, view);
    number := steps[k].event.operation;
    j := PendingOrigin(trace, steps, k, view, number);
  }

  lemma {:induction false} ReceiptAsks(trace: seq<Host>, steps: seq<Step>, k: nat, view: ViewId)
    requires Run(trace, steps) && k < |steps| && AsksToClose(trace[k], steps[k], trace[k + 1], view)
    ensures steps[k].event.Saved? && InFlight(trace[k], steps[k].id).Some?
    ensures InFlight(trace[k], steps[k].id).value.0 == steps[k].event.operation
    ensures InFlight(trace[k + 1], steps[k].id).None?
    ensures trace[k].saveClose == Some((view, steps[k].event.operation))
    ensures view in trace[k].registry.views && trace[k].registry.views[view] == steps[k].id
  {
    var h, id := trace[k], steps[k].id;
    RunKeepsInv(trace, steps, k);
    assert Linked(trace, steps, k);
    OnlyReceiptsAsk(h, id, steps[k].event, view);
    MatchingReceiptIsAccepted(h, id, steps[k].event.operation, InFlight(h, id).value.1, steps[k].event.version);
  }

  lemma {:induction false} OnlyReceiptsAsk(h: Host, id: DocId, event: Event, view: ViewId)
    requires id in h.registry.documents && AsksToClose(h, SourceEvent(id, event), Evented(h, id, event), view)
    ensures event.Saved? && InFlight(h, id).Some? && InFlight(h, id).value.0 == event.operation
    ensures h.saveClose == Some((view, event.operation)) && view in h.registry.views && h.registry.views[view] == id
  {
    EventFrame(h, id, event);
  }

  // ----- unsaved text -----

  /** The last view of a document goes away only when nothing is being saved, and with unsaved text only by
      pressing discard in the sheet of that view. */
  lemma {:induction false} OnlyDiscardDropsUnsaved(h: Host, step: Step, id: DocId)
    requires Valid(h.registry) && id in h.registry.documents && id !in Apply(h, step).registry.documents
    ensures h.registry.documents[id].saving.None?
    ensures Dirty(h.registry.documents[id]) ==>
              step == PressSheet(DiscardPressed) && h.close.Some? && h.close.value in h.registry.views
              && h.registry.views[h.close.value] == id && LastView(h.registry, h.close.value)
  {
    if !Closes(step) {
      OthersKeepOpen(h, step);
    } else if step.PressSheet? {
      PressDropsOnly(h, step.press, id);
    } else {
      TabsDropOnly(h, step, id);
    }
  }

  lemma {:induction false} TabsDropOnly(h: Host, step: Step, id: DocId)
    requires Valid(h.registry) && (step.TakeRequest? || step.CloseTab?)
    requires id in h.registry.documents && id !in Apply(h, step).registry.documents
    ensures h.registry.documents[id].saving.None? && !Dirty(h.registry.documents[id])
  {
    if step.TakeRequest? {
      if h.closeRequested.Some? { CloseDropsOnly(h.(closeRequested := None), h.closeRequested.value, false, id); }
    } else {
      if ViewAt(h.views, step.tab).Some? { CloseDropsOnly(h, ViewAt(h.views, step.tab).value, false, id); }
    }
  }

  /** Over every run: while a document has unsaved text and nobody presses discard, it stays open. */
  lemma {:induction false} UnsavedTextSurvives(trace: seq<Host>, steps: seq<Step>, i: nat, k: nat, id: DocId)
    requires Run(trace, steps) && i <= k < |trace| && id in trace[i].registry.documents
    requires forall j :: i <= j < k ==> steps[j] != PressSheet(DiscardPressed)
    requires forall j :: i <= j < k && id in trace[j].registry.documents ==> Dirty(trace[j].registry.documents[id])
    ensures id in trace[k].registry.documents
    decreases k
  {
    if i < k {
      UnsavedTextSurvives(trace, steps, i, k - 1, id);
      UnsavedTextStays(trace, steps, k - 1, id);
    }
  }

  lemma {:induction false} UnsavedTextStays(trace: seq<Host>, steps: seq<Step>, k: nat, id: DocId)
    requires Run(trace, steps) && k < |steps| && id in trace[k].registry.documents
             && Dirty(trace[k].registry.documents[id])
    requires steps[k] != PressSheet(DiscardPressed)
    ensures id in trace[k + 1].registry.documents
  {
    RunKeepsInv(trace, steps, k);
    assert Linked(trace, steps, k);
    if id !in trace[k + 1].registry.documents {
      OnlyDiscardDropsUnsaved(trace[k], steps[k], id);
    }
  }

  lemma {:induction false} CloseDropsOnly(h: Host, view: ViewId, discard: bool, id: DocId)
    requires Valid(h.registry) && id in h.registry.documents && id !in ViewClosedBy(h, view, discard).registry.documents
    ensures view in h.registry.views && h.registry.views[view] == id && LastView(h.registry, view)
    ensures h.registry.documents[id].saving.None? && (Dirty(h.registry.documents[id]) ==> discard)
  {
    CloseKeepsDirty(h.registry, view, discard, id);
  }

  lemma {:induction false} PressDropsOnly(h: Host, press: Press, id: DocId)
    requires Valid(h.registry) && id in h.registry.documents && id !in SheetPressed(h, press).registry.documents
    ensures h.registry.documents[id].saving.None? && press.DiscardPressed? && h.close.Some?
            && h.close.value in h.registry.views
            && h.registry.views[h.close.value] == id && LastView(h.registry, h.close.value)
  {
    match press
    case DiscardPressed => CloseDropsOnly(h, h.close.value, true, id);
    case SavePressed(fits, failure) => SavePressFrame(h, fits, failure);
    case _ =>
  }
}
