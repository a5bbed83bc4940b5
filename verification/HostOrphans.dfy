/**
 What the host assumes of its files.  A document marked as saving waits for the receipt of the save in flight; the
 one event that would break this is its file being reported gone meanwhile.  `HostFiles` shows that the native
 adapters never report that.
 */
module HostOrphans {
  import opened Registry
  import opened HostSteps
  import opened HostFrames
  import opened HostInvariant
  import opened HostSaves
  import opened HostClosing

  /** Marked as saving, with nothing left that could deliver the receipt. */
  predicate Orphaned(h: Host, id: DocId) {
    id in h.registry.documents && h.registry.documents[id].saving.Some? && id !in h.sources
  }

  /** The document keeps its save marker, and keeps or still lacks its source. */
  predicate Keeps(h: Host, h': Host, id: DocId) {
    SameSaving(h.registry, h'.registry, id) && (id in h'.sources <==> id in h.sources)
  }

  lemma {:induction false} OtherEventsKeep(h: Host, d: DocId, event: Event, id: DocId)
    requires Inv(h) && id in h.registry.documents && id != d && d in h.registry.documents
    ensures Keeps(h, Evented(h, d, event), id)
  {
    match event
    case Loaded(s) => LoadKeeps(h, d, s, id);
    case Saved(number, version) => ReceiptKeeps(h, d, number, version, id);
    case SaveFailed(number, failure) => RefusalKeeps(h, d, number, failure, id);
    case Gone =>
  }

  /** A document's save marker, and that it stays unavailable while it is being saved. */
  predicate SameSaving(r: Documents, r': Documents, id: DocId) {
    && id in r.documents && id in r'.documents && r'.documents[id].saving == r.documents[id].saving
    && (r.documents[id].saving.Some? && !r.documents[id].available ==> !r'.documents[id].available)
  }

  lemma {:induction false} ObserveSameSaving(r: Documents, t: ReadTicket, s: Snapshot, id: DocId)
    requires id in r.documents
    ensures SameSaving(r, Observe(r, t, s).0, id)
  {}

  lemma {:induction false} AccessSameSaving(r: Documents, d: DocId, available: bool, writable: bool, id: DocId)
    requires id in r.documents
    ensures SameSaving(r, SetAccess(r, d, available, writable).0, id)
  {}

  lemma {:induction false} ReadKeeps(h: Host, d: DocId, t: ReadTicket, s: FileSnapshot, id: DocId)
    requires id in h.registry.documents
    ensures Keeps(h, ReadArrived(h, d, t, s), id)
  {
    var (r, observed) := Observe(h.registry, t, s.content);
    ObserveSameSaving(h.registry, t, s.content, id);
    if observed.Ok? {
      AccessSameSaving(r, d, true, s.writable, id);
    } else if d in h.registry.documents {
      AccessSameSaving(h.registry, d, h.registry.documents[d].available, false, id);
    }
  }

  lemma {:induction false} LoadKeeps(h: Host, d: DocId, s: FileSnapshot, id: DocId)
    requires id in h.registry.documents
    ensures Keeps(h, Evented(h, d, Loaded(s)), id)
  {
    if d in h.sources && h.sources[d].read.Some? {
      ReadKeeps(ReadTaken(h, d), d, h.sources[d].read.value, s, id);
    }
  }

  lemma {:induction false} ReceiptKeeps(h: Host, d: DocId, number: nat, version: Version, id: DocId)
    requires Inv(h) && id in h.registry.documents && id != d
    ensures Keeps(h, SaveArrived(h, d, number, version), id)
  {
    if SaveTaken(h, d, number).1.Some? {
      TakenReceiptHolds(h, d, number);
    }
  }

  lemma {:induction false} BlameKeeps(h: Host, d: DocId, failure: FileError, id: DocId)
    requires id in h.registry.documents && id != d
    ensures Keeps(h, Blamed(h, d, failure), id)
  {}

  lemma {:induction false} RefusalKeeps(h: Host, d: DocId, number: nat, failure: FileError, id: DocId)
    requires Inv(h) && id in h.registry.documents && id != d && d in h.registry.documents
    ensures Keeps(h, SaveRefused(h, d, number, failure), id)
  {
    if InFlight(h, d).Some? && InFlight(h, d).value.0 == number {
      TakenReceiptHolds(h, d, number);
      FailureKeeps(h, d, number, InFlight(h, d).value.1, failure, id);
    } else {
      OtherReceiptsAreRefused(h, d, number, 0, failure);
    }
  }

  lemma {:induction false} FailureKeeps(h: Host, d: DocId, number: nat, t: SaveTicket, failure: FileError, id: DocId)
    requires InFlight(h, d) == Some((number, t)) && t.document == d && Holds(h.registry, t)
    requires id in h.registry.documents && id != d
    ensures Keeps(h, SaveRefused(h, d, number, failure), id)
  {
    FailureIsBlamed(h, d, number, t, failure);
    BlameKeeps(AfterFailure(h, d, number), d, failure, id);
  }

  /** A document that is being saved stays open and keeps its save marker. */
  predicate KeepsMarker(r: Documents, r': Documents, id: DocId) {
    id in r.documents && r.documents[id].saving.Some? ==>
      id in r'.documents && r'.documents[id].saving == r.documents[id].saving
  }

  /** The step neither makes nor ends an orphan, and settles no save of the document. */
  predicate SameOrphan(h: Host, h': Host, id: DocId) {
    && (Orphaned(h', id) <==> Orphaned(h, id)) && (Orphaned(h, id) ==> Keeps(h, h', id))
    && KeepsMarker(h.registry, h'.registry, id)
  }

  /** An event of the document itself orphans it only if it says the file is gone while a save is in flight. */
  lemma {:induction false} OwnEventOrphans(h: Host, id: DocId, event: Event)
    requires Inv(h) && id in h.registry.documents && !Orphaned(h, id)
    ensures Orphaned(Evented(h, id, event), id) <==> event.Gone? && InFlight(h, id).Some?
  {
    if id in h.sources {
      assert GoodSource(h.registry, h.operation, id, h.sources[id]);
    }
    match event
    case Loaded(s) => LoadKeeps(h, id, s, id);
    case Saved(number, version) => ReceiptLeavesNoOrphan(h, id, number, version);
    case SaveFailed(number, failure) => RefusalLeavesNoOrphan(h, id, number, failure);
    case Gone => GoneOrphans(h, id);
  }

  lemma {:induction false} GoneOrphans(h: Host, id: DocId)
    requires id in h.registry.documents
    ensures Orphaned(Evented(h, id, Gone), id) <==> h.registry.documents[id].saving.Some?
    ensures !Evented(h, id, Gone).registry.documents[id].available
  {}

  lemma {:induction false} ReceiptLeavesNoOrphan(h: Host, id: DocId, number: nat, version: Version)
    requires Inv(h) && id in h.registry.documents && !Orphaned(h, id)
    ensures !Orphaned(SaveArrived(h, id, number, version), id)
  {
    if InFlight(h, id).Some? && InFlight(h, id).value.0 == number {
      MatchingReceiptIsAccepted(h, id, number, InFlight(h, id).value.1, version);
    }
  }

  lemma {:induction false} RefusalLeavesNoOrphan(h: Host, id: DocId, number: nat, failure: FileError)
    requires Inv(h) && id in h.registry.documents && !Orphaned(h, id)
    ensures !Orphaned(SaveRefused(h, id, number, failure), id)
  {
    if InFlight(h, id).Some? && InFlight(h, id).value.0 == number {
      TakenReceiptHolds(h, id, number);
      MatchedFailureLeavesNoOrphan(h, id, number, InFlight(h, id).value.1, failure);
    } else {
      UnmatchedFailureLeavesNoOrphan(h, id, number, failure);
    }
  }

  lemma {:induction false} MatchedFailureLeavesNoOrphan(h: Host, id: DocId, number: nat, t: SaveTicket,
                                                        failure: FileError)
    requires InFlight(h, id) == Some((number, t)) && t.document == id && Holds(h.registry, t)
    ensures !Orphaned(SaveRefused(h, id, number, failure), id)
  {
    FailureIsBlamed(h, id, number, t, failure);
    BlameOutcome(AfterFailure(h, id, number), id, failure);
  }

  lemma {:induction false} UnmatchedFailureLeavesNoOrphan(h: Host, id: DocId, number: nat, failure: FileError)
    requires id in h.registry.documents && !Orphaned(h, id)
    requires InFlight(h, id).Some? ==> InFlight(h, id).value.0 != number
    ensures !Orphaned(SaveRefused(h, id, number, failure), id)
  {
    OtherReceiptsAreRefused(h, id, number, 0, failure);
  }

  // ----- the other steps -----

  lemma {:induction false} AttachLeavesNoOrphan(h: Host, s: FileSnapshot, id: DocId)
    requires Inv(h)
    ensures SameOrphan(h, OpeningLoaded(h, s).0, id)
  {
    if h.opening.Some? && Attached(h.(opening := None), h.opening.value, s).1 {
      JoinLeavesNoOrphan(h.(opening := None), h.opening.value, s, id);
    } else {
      RefusedAttachKeeps(h, s);
    }
  }

  lemma {:induction false} RefusedAttachKeeps(h: Host, s: FileSnapshot)
    requires Inv(h) && !OpeningLoaded(h, s).1
    ensures OpeningLoaded(h, s).0 == h.(opening := None) || OpeningLoaded(h, s).0 == h
  {
    var r := h.registry;
    if h.opening.Some? && s.key.Some?
       && (s.key.value in r.origins ==> r.documents[r.origins[s.key.value]].saving.None?) {
      JoinOutcome(h.registry, h.opening.value, s.key.value, s);
    }
  }

  lemma {:induction false} JoinLeavesNoOrphan(h: Host, existing: map<DocId, ReadTicket>, s: FileSnapshot, id: DocId)
    requires Inv(h) && GoodOpening(Some(existing)) && Attached(h, existing, s).1
    ensures SameOrphan(h, Attached(h, existing, s).0, id)
  {
    var (r, joined) := Joining(h.registry, existing, s.key.value, s);
    JoinOutcome(h.registry, existing, s.key.value, s);
    JoinSpares(h.registry, existing, s.key.value, s, id);
    ShownLeavesNoOrphan(h, r, joined.value, id);
  }

  /** The source part: the document that gets a source is not being saved. */
  lemma {:induction false} ShownLeavesNoOrphan(h: Host, r: Documents, joined: Joined, id: DocId)
    requires joined.id in r.documents && r.documents[joined.id].saving.None?
    requires id in h.registry.documents && h.registry.documents[id].saving.Some? ==> SameSaving(h.registry, r, id)
    requires id in r.documents && r.documents[id].saving.Some? ==>
               id in h.registry.documents && h.registry.documents[id].saving.Some?
    ensures SameOrphan(h, Shown(h.(registry := r), joined), id)
  {}

  /** Attaching a file leaves a document that is being saved exactly as it is; a new document is not being saved. */
  lemma {:induction false} JoinSpares(r: Documents, existing: map<DocId, ReadTicket>, key: Key, s: FileSnapshot,
                                      id: DocId)
    requires Valid(r) && GoodOpening(Some(existing))
    requires key in r.origins ==> r.documents[r.origins[key]].saving.None?
    ensures var r' := Joining(r, existing, key, s).0;
            && (id in r.documents && r.documents[id].saving.Some? ==> SameSaving(r, r', id))
            && (id in r'.documents && r'.documents[id].saving.Some? ==>
                 id in r.documents && r.documents[id].saving.Some?)
  {
    var (r0, attempt) := Open(r, key, s.content, s.writable);
    OpenSpares(r, key, s.content, s.writable, id);
    if attempt.Ok? {
      var d := r0.views[attempt.value];
      var r1 := if key in r.origins && d in existing then Observe(r0, existing[d], s.content).0 else r0;
      if key in r.origins && d in existing {
        ObserveShape(r0, existing[d], s.content);
      }
      AccessShape(r1, d, true, s.writable);
      if id in r0.documents {
        if key in r.origins && d in existing {
          ObserveSameSaving(r0, existing[d], s.content, id);
        }
        AccessSameSaving(r1, d, true, s.writable, id);
      }
    }
  }

  lemma {:induction false} OpenSpares(r: Documents, key: Key, s: Snapshot, writable: bool, id: DocId)
    requires ValidIds(r)
    ensures var r0 := Open(r, key, s, writable).0;
            && (id in r.documents ==> id in r0.documents && r0.documents[id] == r.documents[id])
            && (id in r0.documents && id !in r.documents ==> r0.documents[id].saving.None?)
  {}

  lemma {:induction false} SaveLeavesNoOrphan(h: Host, view: ViewId, fits: bool, failure: Option<FileError>, id: DocId)
    requires Inv(h)
    ensures SameOrphan(h, SaveStarted(h, view, fits, failure), id)
  {
    var t := SaveOutcome(h, view, fits, failure);
  }

  lemma {:induction false} RefreshLeavesNoOrphan(h: Host, d: DocId, failure: Option<FileError>, id: DocId)
    requires Inv(h)
    ensures SameOrphan(h, Refreshed(h, d, failure), id)
  {
    var (h', error) := RefreshStarted(h, d, failure);
    if error.Some? && !error.value.FileBusy? {
      DroppedLeavesNoOrphan(h.(refresh := h.refresh - {d}), d, id);
      assert h' == h;
    }
  }

  /** A source without a save can go. */
  lemma {:induction false} DroppedLeavesNoOrphan(h: Host, d: DocId, id: DocId)
    requires d in h.sources && d in h.registry.documents ==> h.registry.documents[d].saving.None?
    ensures SameOrphan(h, MadeUnavailable(h, d), id)
  {}

  /** The last view of a document that is being saved does not close, so an orphan stays. */
  lemma {:induction false} CloseLeavesNoOrphan(h: Host, view: ViewId, discard: bool, id: DocId)
    requires Valid(h.registry)
    ensures SameOrphan(h, ViewClosedBy(h, view, discard), id)
  {
    if id in h.registry.documents && id !in ViewClosedBy(h, view, discard).registry.documents {
      CloseDropsOnly(h, view, discard, id);
    } else {
      CloseKeepsRest(h, view, discard, id);
    }
  }

  lemma {:induction false} CloseKeepsRest(h: Host, view: ViewId, discard: bool, id: DocId)
    ensures var h' := ViewClosedBy(h, view, discard);
            id in h'.registry.documents ==>
              && id in h.registry.documents && h'.registry.documents[id] == h.registry.documents[id]
              && (id in h'.sources <==> id in h.sources)
  {}

  lemma {:induction false} SavePressLeavesNoOrphan(h: Host, fits: bool, failure: Option<FileError>, id: DocId)
    requires Inv(h)
    ensures SameOrphan(h, SheetPressed(h, SavePressed(fits, failure)), id)
  {
    if SaveEnabled(h) {
      SavePressOutcome(h, fits, failure);
      SaveLeavesNoOrphan(h, h.close.value, fits, failure, id);
    }
  }

  lemma {:induction false} IdlePressLeavesNoOrphan(h: Host, press: Press, id: DocId)
    requires press.CancelPressed? || press.Nothing?
    ensures SameOrphan(h, SheetPressed(h, press), id)
  {
    assert SheetPressed(h, press).registry == h.registry && SheetPressed(h, press).sources == h.sources;
  }

  lemma {:induction false} DiscardLeavesNoOrphan(h: Host, id: DocId)
    requires Valid(h.registry)
    ensures SameOrphan(h, SheetPressed(h, DiscardPressed), id)
  {
    if h.close.Some? {
      CloseLeavesNoOrphan(h, h.close.value, true, id);
    }
  }

  lemma {:induction false} PressLeavesNoOrphan(h: Host, press: Press, id: DocId)
    requires Inv(h)
    ensures SameOrphan(h, SheetPressed(h, press), id)
  {
    match press
    case SavePressed(fits, failure) => SavePressLeavesNoOrphan(h, fits, failure, id);
    case DiscardPressed => DiscardLeavesNoOrphan(h, id);
    case _ => IdlePressLeavesNoOrphan(h, press, id);
  }

  lemma {:induction false} SameRegistryOrphan(h: Host, h': Host, id: DocId)
    requires id in h.registry.documents ==> SameSaving(h.registry, h'.registry, id)
    requires id in h'.registry.documents ==> id in h.registry.documents
    requires h'.sources == h.sources
    ensures SameOrphan(h, h', id)
  {}

  lemma {:induction false} TypingSameSaving(r: Documents, view: ViewId, point: nat, id: DocId)
    requires id in r.documents
    ensures SameSaving(r, Edited(r, view, point), id)
    ensures SameSaving(r, KeptEdits(r, view), id) && SameSaving(r, Reloaded(r, view), id)
  {}

  lemma {:induction false} TypingLeavesNoOrphan(h: Host, step: Step, id: DocId)
    requires Types(step)
    ensures SameOrphan(h, Apply(h, step), id)
  {
    EditFrame(h, step);
    if id in h.registry.documents {
      TypingSameSaving(h.registry, step.view, if step.Edit? then step.point else 0, id);
    }
    SameRegistryOrphan(h, Apply(h, step), id);
  }

  lemma {:induction false} SuspendLeavesNoOrphan(h: Host, id: DocId)
    ensures SameOrphan(h, Invalidated(h), id)
  {}

  lemma {:induction false} DuplicateLeavesNoOrphan(h: Host, view: ViewId, id: DocId)
    ensures SameOrphan(h, Duplicated(h, view), id)
  {}

  lemma {:induction false} EditLeavesNoOrphan(h: Host, step: Step, id: DocId)
    requires IsEdit(step) || step.Duplicate?
    ensures SameOrphan(h, Apply(h, step), id)
  {
    if Types(step) {
      TypingLeavesNoOrphan(h, step, id);
    } else if step.Suspend? {
      SuspendLeavesNoOrphan(h, id);
    } else {
      DuplicateLeavesNoOrphan(h, step.view, id);
    }
  }

  lemma {:induction false} ClosingLeavesNoOrphan(h: Host, step: Step, id: DocId)
    requires Inv(h) && Closes(step)
    ensures SameOrphan(h, Apply(h, step), id)
  {
    match step
    case TakeRequest =>
      if h.closeRequested.Some? { CloseLeavesNoOrphan(h.(closeRequested := None), h.closeRequested.value, false, id); }
    case CloseTab(tab) =>
      if ViewAt(h.views, tab).Some? { CloseLeavesNoOrphan(h, ViewAt(h.views, tab).value, false, id); }
    case PressSheet(press) => PressLeavesNoOrphan(h, press, id);
  }

  lemma {:induction false} OthersLeaveNoOrphan(h: Host, step: Step, id: DocId)
    requires Inv(h) && !step.SourceEvent?
    ensures SameOrphan(h, Apply(h, step), id)
  {
    if Closes(step) {
      ClosingLeavesNoOrphan(h, step, id);
    } else if Small(step) {
      SmallFrame(h, step);
    } else if IsEdit(step) || step.Duplicate? {
      EditLeavesNoOrphan(h, step, id);
    } else {
      FilesLeaveNoOrphan(h, step, id);
    }
  }

  lemma {:induction false} FilesLeaveNoOrphan(h: Host, step: Step, id: DocId)
    requires Inv(h) && (step.OpenLoaded? || step.RefreshOne? || step.Save?)
    ensures SameOrphan(h, Apply(h, step), id)
  {
    match step
    case OpenLoaded(s) => AttachLeavesNoOrphan(h, s, id);
    case RefreshOne(d, failure) => RefreshLeavesNoOrphan(h, d, failure, id);
    case Save(v, fits, failure) => SaveLeavesNoOrphan(h, v, fits, failure, id);
  }

  /** A step orphans a document exactly when it reports the file gone while its save is in flight. */
  lemma {:induction false} OrphanedExactlyWhenGone(h: Host, step: Step, id: DocId)
    requires Inv(h) && !Orphaned(h, id)
    ensures Orphaned(Apply(h, step), id) <==> step == SourceEvent(id, Gone) && InFlight(h, id).Some?
  {
    if step.SourceEvent? {
      if id == step.id && id in h.registry.documents {
        OwnEventOrphans(h, id, step.event);
      } else if step.id in h.registry.documents {
        if id in h.registry.documents {
          OtherEventsKeep(h, step.id, step.event, id);
        } else {
          EventFrame(h, step.id, step.event);
        }
      }
    } else {
      OthersLeaveNoOrphan(h, step, id);
    }
  }

  /** An event for an orphan finds no source: nothing about the document changes. */
  lemma {:induction false} OrphanKeeps(h: Host, step: Step, id: DocId)
    requires Inv(h) && Orphaned(h, id)
    ensures Keeps(h, Apply(h, step), id)
  {
    if step.SourceEvent? {
      if step.id == id {
        OrphanIgnoresEvents(h, id, step.event);
      } else if step.id in h.registry.documents {
        OtherEventsKeep(h, step.id, step.event, id);
      }
    } else {
      OthersLeaveNoOrphan(h, step, id);
    }
  }

  lemma {:induction false} OrphanIgnoresEvents(h: Host, id: DocId, event: Event)
    requires Orphaned(h, id)
    ensures Keeps(h, Evented(h, id, event), id)
  {
    match event
    case Loaded(s) =>
    case Saved(number, version) => OtherReceiptsAreRefused(h, id, number, version, Io);
    case SaveFailed(number, failure) => OtherReceiptsAreRefused(h, id, number, 0, failure);
    case Gone =>
  }

  /** From then on, whatever happens, the document stays open, stays marked as saving, stays unavailable, and has no
      source: no save of it starts, no receipt settles it, and its last view does not close. */
  lemma {:induction false} OrphanForever(trace: seq<Host>, steps: seq<Step>, i: nat, k: nat, id: DocId)
    requires Run(trace, steps) && i <= k < |trace|
    requires Orphaned(trace[i], id) && !trace[i].registry.documents[id].available
    ensures Orphaned(trace[k], id) && !trace[k].registry.documents[id].available
    ensures trace[k].registry.documents[id].saving == trace[i].registry.documents[id].saving
    decreases k
  {
    if i < k {
      OrphanForever(trace, steps, i, k - 1, id);
      RunKeepsInv(trace, steps, k - 1);
      assert Linked(trace, steps, k - 1);
      OrphanKeeps(trace[k - 1], steps[k - 1], id);
    }
  }

  /** Over every run: once a file goes away during its save, the document can never again be saved, attached or, by its
      last view, closed. */
  lemma {:induction false} GoneDuringSaveIsForever(trace: seq<Host>, steps: seq<Step>, i: nat, k: nat, id: DocId,
                                                   view: ViewId, discard: bool, fits: bool)
    requires Run(trace, steps) && i < k < |trace|
    requires steps[i] == SourceEvent(id, Gone) && InFlight(trace[i], id).Some?
    ensures Orphaned(trace[k], id) && !trace[k].registry.documents[id].available
    ensures view in trace[k].registry.views && trace[k].registry.views[view] == id ==>
              PrepareSave(trace[k].registry, view, fits).1 == Err(Unavailable)
    ensures view in trace[k].registry.views && trace[k].registry.views[view] == id
            && LastView(trace[k].registry, view) ==>
              Close(trace[k].registry, view, discard).1 == Err(Busy)
    ensures SetAccess(trace[k].registry, id, true, true).1 == Err(Busy)
  {
    GoneOrphansAt(trace, steps, i, id);
    OrphanForever(trace, steps, i + 1, k, id);
  }

  ghost function Opened(nextTab: nat, file: FileSnapshot): Host {
    Apply(Apply(Started(nextTab), Pick(None)), OpenLoaded(file))
  }

  lemma {:induction false} OpenedIsIdle(nextTab: nat, file: FileSnapshot)
    requires nextTab < MAX_ID && file.key.Some? && file.content.readable && file.writable
    ensures Idle(Opened(nextTab, file), 1, 1)
  {}

  /** The view shows a writable document with a source and nothing in flight. */
  ghost predicate Idle(h: Host, view: ViewId, id: DocId) {
    && view in h.registry.views && h.registry.views[view] == id && id in h.registry.documents
    && Writable(h.registry.documents[id]) && h.registry.documents[id].saving.None?
         && h.registry.documents[id].conflict.None?
    && id in h.sources && h.sources[id] == Source(None, None) && h.operation < MAX_ID
         && h.registry.nextOperation < MAX_ID
  }

  lemma {:induction false} EditKeepsIdle(h: Host, view: ViewId, id: DocId, point: nat)
    requires Idle(h, view, id)
    ensures Idle(Apply(h, Edit(view, point)), view, id)
  {}

  lemma {:induction false} IdleSaves(h: Host, view: ViewId, id: DocId)
    requires Idle(h, view, id)
    ensures InFlight(Apply(h, Save(view, true, None)), id).Some?
  {}

  /** The assumption is needed: the host alone, fed with events in any order, can open a writable file, type, save, and
      be told that the file is gone before the receipt. */
  lemma {:induction false} GoneDuringSaveHappens(nextTab: nat, key: Key, version: Version)
    returns (trace: seq<Host>, steps: seq<Step>)
    requires nextTab < MAX_ID
    ensures Run(trace, steps) && |steps| == 5
    ensures steps[4] == SourceEvent(1, Gone) && InFlight(trace[4], 1).Some? && Orphaned(trace[5], 1)
  {
    var file := FileSnapshot(Some(key), Snapshot(version, true), true);
    OpenedIsIdle(nextTab, file);
    trace, steps := [Started(nextTab)], [];
    trace, steps := OneStepMore(trace, steps, Pick(None));
    trace, steps := OneStepMore(trace, steps, OpenLoaded(file));
    EditKeepsIdle(trace[2], 1, 1, 1);
    trace, steps := OneStepMore(trace, steps, Edit(1, 1));
    IdleSaves(trace[3], 1, 1);
    trace, steps := OneStepMore(trace, steps, Save(1, true, None));
    trace, steps := OneStepMore(trace, steps, SourceEvent(1, Gone));
    GoneOrphansAt(trace, steps, 4, 1);
  }

  lemma {:induction false} GoneOrphansAt(trace: seq<Host>, steps: seq<Step>, i: nat, id: DocId)
    requires Run(trace, steps) && i < |steps| && steps[i] == SourceEvent(id, Gone) && InFlight(trace[i], id).Some?
    ensures Orphaned(trace[i + 1], id) && !trace[i + 1].registry.documents[id].available
  {
    RunKeepsInv(trace, steps, i);
    assert Linked(trace, steps, i);
    assert GoodSource(trace[i].registry, trace[i].operation, id, trace[i].sources[id]);
    GoneOrphans(trace[i], id);
  }

  /** In a run whose files never go away during a save, every document marked as saving has its save in flight, so
      its receipt will be accepted. */
  lemma {:induction false} SavingIsInFlight(trace: seq<Host>, steps: seq<Step>, k: nat, id: DocId)
    requires Run(trace, steps) && k < |trace| && id in trace[k].registry.documents
    requires forall j :: 0 <= j < k ==> !(steps[j] == SourceEvent(id, Gone) && InFlight(trace[j], id).Some?)
    ensures trace[k].registry.documents[id].saving.Some? <==> InFlight(trace[k], id).Some?
  {
    NeverOrphaned(trace, steps, k, id);
    RunKeepsInv(trace, steps, k);
    if id in trace[k].sources {
      assert GoodSource(trace[k].registry, trace[k].operation, id, trace[k].sources[id]);
    }
  }

  lemma {:induction false} NeverOrphaned(trace: seq<Host>, steps: seq<Step>, k: nat, id: DocId)
    requires Run(trace, steps) && k < |trace|
    requires forall j :: 0 <= j < k ==> !(steps[j] == SourceEvent(id, Gone) && InFlight(trace[j], id).Some?)
    ensures !Orphaned(trace[k], id)
  {
    if k > 0 {
      NeverOrphaned(trace, steps, k - 1, id);
      RunKeepsInv(trace, steps, k - 1);
      assert Linked(trace, steps, k - 1);
      OrphanedExactlyWhenGone(trace[k - 1], steps[k - 1], id);
    }
  }
}
