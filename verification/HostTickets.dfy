/**
 What a ticket proves.  Counters only grow, handles are never reused, and every change of text or access moves
 a counter; so a ticket that is still fresh says that nothing happened to the document since it was captured.
 */
module HostTickets {
  import opened Registry
  import opened HostSteps
  import opened HostFrames
  import opened HostInvariant
  import opened HostSaves
  import opened HostClosing

  /** No counter of the document goes back; if none moved, its text and its access are the same. */
  predicate Aged(d: Document, d': Document) {
    && d.revision <= d'.revision && d.sourceEpoch <= d'.sourceEpoch && d.accessEpoch <= d'.accessEpoch
    && (d.revision == d'.revision ==> d.point == d'.point)
    && (d.accessEpoch == d'.accessEpoch ==> d.available == d'.available && d.writable == d'.writable)
  }

  ghost predicate Older(r: Documents, r': Documents) {
    && r.nextView <= r'.nextView && r.nextDocument <= r'.nextDocument
    && (forall v :: v in r'.views ==> v in r.views || r.nextView < v)
    && (forall id :: id in r'.documents ==> id in r.documents || r.nextDocument < id)
    && (forall id :: id in r.documents && id in r'.documents ==> Aged(r.documents[id], r'.documents[id]))
  }

  lemma {:induction false} OlderTrans(a: Documents, b: Documents, c: Documents)
    requires ValidIds(a) && Older(a, b) && Older(b, c)
    ensures Older(a, c)
  {}

  lemma {:induction false} WithIsOlder(r: Documents, id: DocId, d: Document)
    requires id in r.documents && Aged(r.documents[id], d)
    ensures Older(r, With(r, id, d))
  {}

  // ----- the registry -----

  lemma {:induction false} ObserveIsOlder(r: Documents, t: ReadTicket, s: Snapshot)
    ensures Older(r, Observe(r, t, s).0)
  {
    var r' := Observe(r, t, s).0;
    if r' != r {
      WithIsOlder(r, t.document, r'.documents[t.document]);
      assert r' == With(r, t.document, r'.documents[t.document]);
    }
  }

  lemma {:induction false} AccessIsOlder(r: Documents, id: DocId, available: bool, writable: bool)
    ensures Older(r, SetAccess(r, id, available, writable).0)
  {
    var r' := SetAccess(r, id, available, writable).0;
    if r' != r {
      WithIsOlder(r, id, r'.documents[id]);
    }
  }

  lemma {:induction false} SettlingIsOlder(r: Documents, t: SaveTicket, version: Version)
    ensures Older(r, FinishSave(r, t, version).0) && Older(r, FailSave(r, t).0)
  {
    if Holds(r, t) {
      WithIsOlder(r, t.document, FinishSave(r, t, version).0.documents[t.document]);
      WithIsOlder(r, t.document, FailSave(r, t).0.documents[t.document]);
    }
  }

  lemma {:induction false} OpenIsOlder(r: Documents, key: Key, s: Snapshot, writable: bool)
    requires ValidIds(r)
    ensures Older(r, Open(r, key, s, writable).0)
  {}

  lemma {:induction false} JoinIsOlder(r: Documents, existing: map<DocId, ReadTicket>, key: Key, s: FileSnapshot)
    requires Valid(r)
    ensures Older(r, Joining(r, existing, key, s).0)
  {
    var (r0, attempt) := Open(r, key, s.content, s.writable);
    OpenIsOlder(r, key, s.content, s.writable);
    OpenKeepsValid(r, key, s.content, s.writable);
    if attempt.Ok? {
      var id := r0.views[attempt.value];
      var r1 := if key in r.origins && id in existing then Observe(r0, existing[id], s.content).0 else r0;
      if key in r.origins && id in existing {
        ObserveIsOlder(r0, existing[id], s.content);
        OlderTrans(r, r0, r1);
      }
      AccessIsOlder(r1, id, true, s.writable);
      OlderTrans(r, r1, SetAccess(r1, id, true, s.writable).0);
    }
  }

  // ----- the host -----

  lemma {:induction false} ReadIsOlder(h: Host, id: DocId, t: ReadTicket, s: FileSnapshot)
    requires ValidIds(h.registry)
    ensures Older(h.registry, ReadArrived(h, id, t, s).registry)
  {
    var (r, observed) := Observe(h.registry, t, s.content);
    if observed.Ok? {
      ObserveIsOlder(h.registry, t, s.content);
      AccessIsOlder(r, id, true, s.writable);
      OlderTrans(h.registry, r, SetAccess(r, id, true, s.writable).0);
    } else if id in h.registry.documents {
      AccessIsOlder(h.registry, id, h.registry.documents[id].available, false);
    }
  }

  lemma {:induction false} BlameIsOlder(h: Host, id: DocId, failure: FileError)
    ensures Older(h.registry, Blamed(h, id, failure).registry)
  {
    match failure
    case FileUnavailable => AccessIsOlder(h.registry, id, false, false);
    case FileReadOnly => AccessIsOlder(h.registry, id, true, false);
    case _ =>
  }

  lemma {:induction false} FailureIsOlder(h: Host, id: DocId, t: SaveTicket, failure: FileError)
    requires ValidIds(h.registry)
    ensures Older(h.registry, FailureSettled(h, id, t, failure).registry)
  {
    var r := FailSave(h.registry, t).0;
    SettlingIsOlder(h.registry, t, 0);
    BlameIsOlder(h.(registry := r), id, failure);
    OlderTrans(h.registry, r, Blamed(h.(registry := r), id, failure).registry);
  }

  lemma {:induction false} RefusalIsOlder(h: Host, id: DocId, number: nat, failure: FileError)
    requires ValidIds(h.registry)
    ensures Older(h.registry, SaveRefused(h, id, number, failure).registry)
  {
    var h0 := if h.saveClose.Some? && h.saveClose.value.1 == number then h.(saveClose := None) else h;
    var (taken, t) := SaveTaken(h0, id, number);
    if t.Some? {
      FailureIsOlder(taken, id, t.value, failure);
    }
  }

  lemma {:induction false} ReceiptIsOlder(h: Host, id: DocId, number: nat, version: Version)
    ensures Older(h.registry, SaveArrived(h, id, number, version).registry)
  {
    var t := SaveTaken(h, id, number).1;
    if t.Some? {
      SettlingIsOlder(h.registry, t.value, version);
    }
  }

  lemma {:induction false} EventIsOlder(h: Host, id: DocId, event: Event)
    requires ValidIds(h.registry)
    ensures Older(h.registry, Evented(h, id, event).registry)
  {
    match event
    case Loaded(s) =>
      if id in h.sources && h.sources[id].read.Some? { ReadIsOlder(ReadTaken(h, id), id, h.sources[id].read.value, s); }
    case Saved(number, version) => ReceiptIsOlder(h, id, number, version);
    case SaveFailed(number, failure) => RefusalIsOlder(h, id, number, failure);
    case Gone => AccessIsOlder(h.registry, id, false, false);
  }

  lemma {:induction false} SaveIsOlder(h: Host, view: ViewId, fits: bool, failure: Option<FileError>)
    ensures Older(h.registry, SaveStarted(h, view, fits, failure).registry)
  {
    var (r, t) := PrepareSave(h.registry, view, fits);
    if t.Ok? {
      FailUndoesPrepare(h.registry, view, fits);
    }
  }

  lemma {:induction false} RefreshIsOlder(h: Host, id: DocId, failure: Option<FileError>)
    ensures Older(h.registry, Refreshed(h, id, failure).registry)
  {
    AccessIsOlder(h.registry, id, false, false);
  }

  lemma {:induction false} CloseIsOlder(h: Host, view: ViewId, discard: bool)
    ensures Older(h.registry, ViewClosedBy(h, view, discard).registry)
  {}

  lemma {:induction false} PressIsOlder(h: Host, press: Press)
    ensures Older(h.registry, SheetPressed(h, press).registry)
  {
    match press
    case SavePressed(fits, failure) =>
      if SaveEnabled(h) {
        SavePressOutcome(h, fits, failure);
        SaveIsOlder(h, h.close.value, fits, failure);
      }
    case DiscardPressed =>
      if h.close.Some? { CloseIsOlder(h, h.close.value, true); }
    case _ =>
  }

  lemma {:induction false} TypingIsOlder(r: Documents, view: ViewId, point: nat)
    ensures Older(r, Edited(r, view, point)) && Older(r, KeptEdits(r, view)) && Older(r, Reloaded(r, view))
  {
    if view in r.views && r.views[view] in r.documents {
      var id := r.views[view];
      if Edited(r, view, point) != r { WithIsOlder(r, id, Edited(r, view, point).documents[id]); }
      if KeptEdits(r, view) != r { WithIsOlder(r, id, KeptEdits(r, view).documents[id]); }
      if Reloaded(r, view) != r { WithIsOlder(r, id, Reloaded(r, view).documents[id]); }
    }
  }

  lemma {:induction false} RevokingIsOlder(r: Documents, ids: set<DocId>)
    ensures Older(r, Revoked(r, ids))
  {}

  lemma {:induction false} TypingStepIsOlder(h: Host, step: Step)
    requires Types(step)
    ensures Older(h.registry, Apply(h, step).registry)
  {
    TypingIsOlder(h.registry, step.view, if step.Edit? then step.point else 0);
  }

  lemma {:induction false} EditIsOlder(h: Host, step: Step)
    requires IsEdit(step)
    ensures Older(h.registry, Apply(h, step).registry)
  {
    if step.Suspend? {
      RevokingIsOlder(h.registry, h.sources.Keys);
    } else {
      TypingStepIsOlder(h, step);
    }
  }

  lemma {:induction false} DuplicateIsOlder(h: Host, view: ViewId)
    ensures Older(h.registry, Duplicated(h, view).registry)
  {}

  lemma {:induction false} AttachIsOlder(h: Host, s: FileSnapshot)
    requires Valid(h.registry)
    ensures Older(h.registry, OpeningLoaded(h, s).0.registry)
  {
    if OpeningLoaded(h, s).0.registry != h.registry {
      JoinIsOlder(h.registry, h.opening.value, s.key.value, s);
    }
  }

  lemma {:induction false} ClosingIsOlder(h: Host, step: Step)
    requires Closes(step)
    ensures Older(h.registry, Apply(h, step).registry)
  {
    match step
    case TakeRequest =>
      if h.closeRequested.Some? { CloseIsOlder(h.(closeRequested := None), h.closeRequested.value, false); }
    case CloseTab(tab) =>
      if ViewAt(h.views, tab).Some? { CloseIsOlder(h, ViewAt(h.views, tab).value, false); }
    case PressSheet(press) => PressIsOlder(h, press);
  }

  /** No step turns a counter back or reuses a handle, and each change of text or access moves a counter. */
  lemma {:induction false} StepIsOlder(h: Host, step: Step)
    requires Valid(h.registry)
    ensures Older(h.registry, Apply(h, step).registry)
  {
    if Closes(step) {
      ClosingIsOlder(h, step);
    } else if IsEdit(step) {
      EditIsOlder(h, step);
    } else if Small(step) {
      SmallFrame(h, step);
    } else {
      FileIsOlder(h, step);
    }
  }

  lemma {:induction false} FileIsOlder(h: Host, step: Step)
    requires Valid(h.registry) && Files(step)
    ensures Older(h.registry, Apply(h, step).registry)
  {
    match step
    case OpenLoaded(s) => AttachIsOlder(h, s);
    case SourceEvent(id, event) => EventIsOlder(h, id, event);
    case RefreshOne(id, failure) => RefreshIsOlder(h, id, failure);
    case Save(view, fits, failure) => SaveIsOlder(h, view, fits, failure);
    case Duplicate(view) => DuplicateIsOlder(h, view);
  }

  // ----- runs -----

  lemma {:induction false} RunIsOlder(trace: seq<Host>, steps: seq<Step>, i: nat, k: nat)
    requires Run(trace, steps) && i <= k < |trace|
    ensures ValidIds(trace[i].registry) && Older(trace[i].registry, trace[k].registry)
    decreases k
  {
    RunKeepsInv(trace, steps, i);
    if i < k {
      RunIsOlder(trace, steps, i, k - 1);
      StepIsOlderAt(trace, steps, k - 1);
      OlderTrans(trace[i].registry, trace[k - 1].registry, trace[k].registry);
    }
  }

  lemma {:induction false} StepIsOlderAt(trace: seq<Host>, steps: seq<Step>, k: nat)
    requires Run(trace, steps) && k < |steps|
    ensures Older(trace[k].registry, trace[k + 1].registry)
  {
    RunKeepsInv(trace, steps, k);
    assert Linked(trace, steps, k);
    StepIsOlder(trace[k], steps[k]);
  }

  /** Over every run: a view or document that was closed never comes back under the same handle. */
  lemma {:induction false} HandlesNeverRecycle(trace: seq<Host>, steps: seq<Step>, i: nat, j: nat, k: nat,
                                               view: ViewId, id: DocId)
    requires Run(trace, steps) && i <= j <= k < |trace|
    ensures view in trace[i].registry.views && view !in trace[j].registry.views ==> view !in trace[k].registry.views
    ensures id in trace[i].registry.documents && id !in trace[j].registry.documents ==>
              id !in trace[k].registry.documents
  {
    RunIsOlder(trace, steps, i, j);
    RunIsOlder(trace, steps, j, k);
  }

  /** Over every run: if a ticket captured at step i is fresh at step k, then at every step in between the document
      was open, with the same text, the same access and the same counters. */
  lemma {:induction false} FreshMeansUntouched(trace: seq<Host>, steps: seq<Step>, i: nat, j: nat, k: nat, id: DocId)
    requires Run(trace, steps) && i <= j <= k < |trace|
    requires id in trace[i].registry.documents && id in trace[k].registry.documents
    requires Fresh(trace[k].registry.documents[id], TicketFor(trace[i].registry, id))
    ensures id in trace[j].registry.documents
    ensures var a, b := trace[i].registry.documents[id], trace[j].registry.documents[id];
            && a.revision == b.revision && a.sourceEpoch == b.sourceEpoch && a.accessEpoch == b.accessEpoch
            && a.point == b.point && a.available == b.available && a.writable == b.writable
  {
    HandlesNeverRecycle(trace, steps, i, j, k, 0, id);
    RunIsOlder(trace, steps, i, j);
    RunIsOlder(trace, steps, j, k);
  }

  // ----- what reads and saves do to text -----

  /** A read never touches unsaved text: it records the change as a conflict instead. */
  lemma {:induction false} ReadsKeepUnsavedText(r: Documents, t: ReadTicket, s: Snapshot, id: DocId)
    requires id in r.documents && Dirty(r.documents[id])
    ensures var d, d' := r.documents[id], Observe(r, t, s).0.documents[id];
            && d'.point == d.point && d'.savedPoint == d.savedPoint && d'.revision == d.revision
                 && d'.version == d.version
            && (Observe(r, t, s).1 == Ok(true) && t.document == id && s.version != d.version ==>
                  Dirty(d') && d'.conflict == Some(Change(s.version, false)))
  {}

  /** An accepted read of a clean document leaves it clean, at the version that was read. */
  lemma {:induction false} ReadsRefreshCleanText(r: Documents, t: ReadTicket, s: Snapshot)
    requires t.document in r.documents && !Dirty(r.documents[t.document]) && Observe(r, t, s).1.Ok?
    ensures var d' := Observe(r, t, s).0.documents[t.document]; !Dirty(d') && d'.version == s.version
    ensures Observe(r, t, s).1.value <==> s.version != r.documents[t.document].version
  {}

  /** A save records the text it wrote: after the receipt the document is clean exactly if typing meanwhile has
      come back to the point that was saved. */
  lemma {:induction false} SavesRecordWhatTheyWrote(r: Documents, view: ViewId, fits: bool, point: nat,
                                                    version: Version)
    requires PrepareSave(r, view, fits).1.Ok?
    ensures var (prepared, t) := PrepareSave(r, view, fits);
            var (after, finished) := FinishSave(Edited(prepared, view, point), t.value, version);
            && finished.Ok? && t.value.document == r.views[view] && t.value.document in after.documents
            && var d := after.documents[t.value.document];
               (Dirty(d) <==> point != r.documents[r.views[view]].point) && d.version == version && d.saving.None?
  {}

  // ----- what touches unsaved text -----

  /** No document's text moved. */
  predicate SameText(r: Documents, r': Documents) {
    forall id | id in r.documents && id in r'.documents :: r'.documents[id].revision == r.documents[id].revision
  }

  /** No unsaved text moved. */
  predicate SameUnsaved(r: Documents, r': Documents) {
    forall id | id in r.documents && id in r'.documents && Dirty(r.documents[id]) ::
      r'.documents[id].revision == r.documents[id].revision
  }

  lemma {:induction false} AccessKeepsText(r: Documents, id: DocId, available: bool, writable: bool)
    ensures SameText(r, SetAccess(r, id, available, writable).0)
    ensures SameShape(r, SetAccess(r, id, available, writable).0)
  {}

  lemma {:induction false} ObserveKeepsUnsaved(r: Documents, t: ReadTicket, s: Snapshot)
    ensures SameUnsaved(r, Observe(r, t, s).0) && SameShape(r, Observe(r, t, s).0)
  {}

  lemma {:induction false} ReadKeepsUnsaved(h: Host, id: DocId, t: ReadTicket, s: FileSnapshot)
    ensures SameUnsaved(h.registry, ReadArrived(h, id, t, s).registry)
  {
    var (r, observed) := Observe(h.registry, t, s.content);
    ObserveKeepsUnsaved(h.registry, t, s.content);
    AccessKeepsText(r, id, true, s.writable);
    if id in h.registry.documents {
      AccessKeepsText(h.registry, id, h.registry.documents[id].available, false);
    }
  }

  lemma {:induction false} BlameKeepsText(h: Host, id: DocId, failure: FileError)
    ensures SameText(h.registry, Blamed(h, id, failure).registry)
  {
    match failure
    case FileUnavailable => AccessKeepsText(h.registry, id, false, false);
    case FileReadOnly => AccessKeepsText(h.registry, id, true, false);
    case _ =>
  }

  lemma {:induction false} FailureKeepsText(h: Host, id: DocId, t: SaveTicket, failure: FileError)
    ensures SameText(h.registry, FailureSettled(h, id, t, failure).registry)
  {
    var r := FailSave(h.registry, t).0;
    FailShape(h.registry, t);
    assert SameText(h.registry, r);
    BlameKeepsText(h.(registry := r), id, failure);
  }

  lemma {:induction false} RefusalKeepsText(h: Host, id: DocId, number: nat, failure: FileError)
    ensures SameText(h.registry, SaveRefused(h, id, number, failure).registry)
  {
    var h0 := if h.saveClose.Some? && h.saveClose.value.1 == number then h.(saveClose := None) else h;
    var (taken, t) := SaveTaken(h0, id, number);
    if t.Some? {
      FailureKeepsText(taken, id, t.value, failure);
    }
  }

  lemma {:induction false} ReceiptKeepsText(h: Host, id: DocId, number: nat, version: Version)
    ensures SameText(h.registry, SaveArrived(h, id, number, version).registry)
  {}

  lemma {:induction false} EventKeepsUnsaved(h: Host, id: DocId, event: Event)
    ensures SameUnsaved(h.registry, Evented(h, id, event).registry)
  {
    match event
    case Loaded(s) =>
      if id in h.sources && h.sources[id].read.Some? {
        ReadKeepsUnsaved(ReadTaken(h, id), id, h.sources[id].read.value, s);
      }
    case Saved(number, version) => ReceiptKeepsText(h, id, number, version);
    case SaveFailed(number, failure) => RefusalKeepsText(h, id, number, failure);
    case Gone => AccessKeepsText(h.registry, id, false, false);
  }

  lemma {:induction false} SaveKeepsText(h: Host, view: ViewId, fits: bool, failure: Option<FileError>)
    ensures SameText(h.registry, SaveStarted(h, view, fits, failure).registry)
  {
    if PrepareSave(h.registry, view, fits).1.Ok? {
      FailUndoesPrepare(h.registry, view, fits);
    }
  }

  lemma {:induction false} RefreshKeepsText(h: Host, id: DocId, failure: Option<FileError>)
    ensures SameText(h.registry, Refreshed(h, id, failure).registry)
  {
    AccessKeepsText(h.registry, id, false, false);
  }

  lemma {:induction false} CloseKeepsText(h: Host, view: ViewId, discard: bool)
    ensures SameText(h.registry, ViewClosedBy(h, view, discard).registry)
  {}

  lemma {:induction false} PressKeepsText(h: Host, press: Press)
    ensures SameText(h.registry, SheetPressed(h, press).registry)
  {
    match press
    case SavePressed(fits, failure) =>
      if SaveEnabled(h) {
        SavePressOutcome(h, fits, failure);
        SaveKeepsText(h, h.close.value, fits, failure);
      }
    case DiscardPressed =>
      if h.close.Some? { CloseKeepsText(h, h.close.value, true); }
    case _ =>
  }

  lemma {:induction false} JoinKeepsUnsaved(r: Documents, existing: map<DocId, ReadTicket>, key: Key, s: FileSnapshot)
    requires ValidIds(r)
    ensures SameUnsaved(r, Joining(r, existing, key, s).0)
  {
    var (r0, attempt) := Open(r, key, s.content, s.writable);
    assert forall id :: id in r.documents ==> id in r0.documents && r0.documents[id] == r.documents[id];
    if attempt.Ok? {
      var id := r0.views[attempt.value];
      var r1 := if key in r.origins && id in existing then Observe(r0, existing[id], s.content).0 else r0;
      if key in r.origins && id in existing {
        ObserveKeepsUnsaved(r0, existing[id], s.content);
      }
      AccessKeepsText(r1, id, true, s.writable);
    }
  }

  lemma {:induction false} AttachKeepsUnsaved(h: Host, s: FileSnapshot)
    requires ValidIds(h.registry)
    ensures SameUnsaved(h.registry, OpeningLoaded(h, s).0.registry)
  {
    if OpeningLoaded(h, s).0.registry != h.registry {
      JoinKeepsUnsaved(h.registry, h.opening.value, s.key.value, s);
    }
  }

  /** Typing into the document, or the user's choice to reload it. */
  predicate Rewrites(h: Host, step: Step, id: DocId) {
    (step.Edit? || step.Reload?) && step.view in h.registry.views && h.registry.views[step.view] == id
  }

  lemma {:induction false} EditKeepsOthers(h: Host, step: Step, id: DocId)
    requires IsEdit(step) || step.Duplicate?
    requires id in h.registry.documents && id in Apply(h, step).registry.documents && !Rewrites(h, step, id)
    ensures Apply(h, step).registry.documents[id].revision == h.registry.documents[id].revision
  {}

  lemma {:induction false} ClosingKeepsUnsaved(h: Host, step: Step)
    requires Closes(step)
    ensures SameUnsaved(h.registry, Apply(h, step).registry)
  {
    match step
    case TakeRequest =>
      if h.closeRequested.Some? { CloseKeepsText(h.(closeRequested := None), h.closeRequested.value, false); }
    case CloseTab(tab) =>
      if ViewAt(h.views, tab).Some? { CloseKeepsText(h, ViewAt(h.views, tab).value, false); }
    case PressSheet(press) => PressKeepsText(h, press);
  }

  lemma {:induction false} OthersKeepUnsaved(h: Host, step: Step)
    requires ValidIds(h.registry) && !IsEdit(step) && !step.Duplicate?
    ensures SameUnsaved(h.registry, Apply(h, step).registry)
  {
    if Closes(step) {
      ClosingKeepsUnsaved(h, step);
    } else if Small(step) {
      SmallFrame(h, step);
    } else {
      match step
      case OpenLoaded(s) => AttachKeepsUnsaved(h, s);
      case SourceEvent(id, event) => EventKeepsUnsaved(h, id, event);
      case RefreshOne(id, failure) => RefreshKeepsText(h, id, failure);
      case Save(view, fits, failure) => SaveKeepsText(h, view, fits, failure);
    }
  }

  /** Unsaved text moves only by typing into the document or by reloading it. */
  lemma {:induction false} OnlyUsersTouchUnsaved(h: Host, step: Step, id: DocId)
    requires ValidIds(h.registry) && id in h.registry.documents && Dirty(h.registry.documents[id])
    requires id in Apply(h, step).registry.documents && !Rewrites(h, step, id)
    ensures Apply(h, step).registry.documents[id].revision == h.registry.documents[id].revision
  {
    if IsEdit(step) || step.Duplicate? {
      EditKeepsOthers(h, step, id);
    } else {
      OthersKeepUnsaved(h, step);
    }
  }

  /** Over every run: while a document has unsaved text, and nobody types into it, reloads it or presses discard, it
      stays open with exactly that text, whatever files, receipts and other documents do. */
  lemma {:induction false} UnsavedTextIsKept(trace: seq<Host>, steps: seq<Step>, i: nat, k: nat, id: DocId)
    requires Run(trace, steps) && i <= k < |trace| && id in trace[i].registry.documents
    requires forall j :: i <= j < k ==> steps[j] != PressSheet(DiscardPressed) && !Rewrites(trace[j], steps[j], id)
    requires forall j :: i <= j < k && id in trace[j].registry.documents ==> Dirty(trace[j].registry.documents[id])
    ensures id in trace[k].registry.documents
    ensures trace[k].registry.documents[id].revision == trace[i].registry.documents[id].revision
    ensures trace[k].registry.documents[id].point == trace[i].registry.documents[id].point
    decreases k
  {
    if i < k {
      UnsavedTextIsKept(trace, steps, i, k - 1, id);
      UnsavedTextStays(trace, steps, k - 1, id);
      UnsavedTextStill(trace, steps, k - 1, id);
    }
  }

  lemma {:induction false} UnsavedTextStill(trace: seq<Host>, steps: seq<Step>, k: nat, id: DocId)
    requires Run(trace, steps) && k < |steps| && !Rewrites(trace[k], steps[k], id)
    requires id in trace[k].registry.documents && Dirty(trace[k].registry.documents[id])
    requires id in trace[k + 1].registry.documents
    ensures trace[k + 1].registry.documents[id].revision == trace[k].registry.documents[id].revision
    ensures trace[k + 1].registry.documents[id].point == trace[k].registry.documents[id].point
  {
    RunKeepsInv(trace, steps, k);
    StepIsOlderAt(trace, steps, k);
    assert Linked(trace, steps, k);
    OnlyUsersTouchUnsaved(trace[k], steps[k], id);
  }
}
