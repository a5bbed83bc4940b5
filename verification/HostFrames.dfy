/** What the host's operations leave alone. */
module HostFrames {
  import opened Registry
  import opened HostSteps

  predicate SameShape(r: Documents, r': Documents) {
    r'.views == r.views && r'.documents.Keys == r.documents.Keys
  }

  /** The same views and documents, and the same close sheet. */
  predicate Framed(h: Host, h': Host) {
    SameShape(h.registry, h'.registry) && h'.views == h.views && h'.close == h.close
  }

  lemma {:induction false} AccessShape(r: Documents, id: DocId, available: bool, writable: bool)
    ensures SameShape(r, SetAccess(r, id, available, writable).0)
  {}

  lemma {:induction false} ObserveShape(r: Documents, t: ReadTicket, s: Snapshot)
    ensures SameShape(r, Observe(r, t, s).0)
  {}

  lemma {:induction false} ReadFrame(h: Host, id: DocId, t: ReadTicket, s: FileSnapshot)
    ensures Framed(h, ReadArrived(h, id, t, s)) && ReadArrived(h, id, t, s).saveClose == h.saveClose
    ensures ReadArrived(h, id, t, s).closeRequested == h.closeRequested
  {
    var (r, observed) := Observe(h.registry, t, s.content);
    ObserveShape(h.registry, t, s.content);
    AccessShape(r, id, true, s.writable);
    if id in h.registry.documents {
      AccessShape(h.registry, id, h.registry.documents[id].available, false);
    }
  }

  lemma {:induction false} UnavailableFrame(h: Host, id: DocId)
    ensures Framed(h, MadeUnavailable(h, id))
  {
    AccessShape(h.registry, id, false, false);
  }

  lemma {:induction false} BlameFrame(h: Host, id: DocId, failure: FileError)
    ensures Framed(h, Blamed(h, id, failure)) && Blamed(h, id, failure).saveClose == h.saveClose
    ensures Blamed(h, id, failure).closeRequested == h.closeRequested
  {
    match failure
    case FileUnavailable => UnavailableFrame(h, id);
    case FileReadOnly => AccessShape(h.registry, id, true, false);
    case _ =>
  }

  lemma {:induction false} FailureFrame(h: Host, id: DocId, t: SaveTicket, failure: FileError)
    ensures var h' := FailureSettled(h, id, t, failure);
            Framed(h, h') && h'.saveClose == h.saveClose && h'.closeRequested == h.closeRequested
  {
    FailShape(h.registry, t);
    BlameFrame(h.(registry := FailSave(h.registry, t).0), id, failure);
  }

  lemma {:induction false} RefusalFrame(h: Host, id: DocId, number: nat, failure: FileError)
    ensures Framed(h, SaveRefused(h, id, number, failure))
    ensures SaveRefused(h, id, number, failure).saveClose ==
            if h.saveClose.Some? && h.saveClose.value.1 == number then None else h.saveClose
    ensures SaveRefused(h, id, number, failure).closeRequested == h.closeRequested
  {
    var h0 := if h.saveClose.Some? && h.saveClose.value.1 == number then h.(saveClose := None) else h;
    var (taken, t) := SaveTaken(h0, id, number);
    if t.Some? {
      FailureFrame(taken, id, t.value, failure);
    }
  }

  lemma {:induction false} FailShape(r: Documents, t: SaveTicket)
    ensures SameShape(r, FailSave(r, t).0)
  {}

  lemma {:induction false} ReceiptFrame(h: Host, id: DocId, number: nat, version: Version)
    ensures Framed(h, SaveArrived(h, id, number, version))
  {
    var (taken, t) := SaveTaken(h, id, number);
    if t.Some? {
      assert SameShape(h.registry, FinishSave(h.registry, t.value, version).0);
    }
  }

  lemma {:induction false} EventFrame(h: Host, id: DocId, event: Event)
    ensures Framed(h, Evented(h, id, event))
    ensures Evented(h, id, event).saveClose in {h.saveClose, None}
    ensures !event.Saved? ==> Evented(h, id, event).closeRequested == h.closeRequested
  {
    match event
    case Loaded(s) =>
      if id in h.sources && h.sources[id].read.Some? { ReadFrame(ReadTaken(h, id), id, h.sources[id].read.value, s); }
    case Saved(number, version) => ReceiptFrame(h, id, number, version);
    case SaveFailed(number, failure) => RefusalFrame(h, id, number, failure);
    case Gone => UnavailableFrame(ReadTaken(h, id), id);
  }

  lemma {:induction false} RefreshFrame(h: Host, id: DocId, failure: Option<FileError>)
    ensures Framed(h, Refreshed(h, id, failure)) && Refreshed(h, id, failure).saveClose == h.saveClose
  {
    var (h', error) := RefreshStarted(h, id, failure);
    UnavailableFrame(h'.(refresh := h'.refresh - {id}), id);
  }

  lemma {:induction false} SaveFrame(h: Host, view: ViewId, fits: bool, failure: Option<FileError>)
    ensures Framed(h, SaveStarted(h, view, fits, failure))
            && SaveStarted(h, view, fits, failure).saveClose == h.saveClose
  {
    var (r, t) := PrepareSave(h.registry, view, fits);
    assert SameShape(h.registry, r);
    if t.Ok? {
      assert SameShape(r, FailSave(r, t.value).0);
    }
  }

  /** The user changes a document's text or settles its conflict. */
  predicate Types(step: Step) {
    step.Edit? || step.KeepEdits? || step.Reload?
  }

  predicate IsEdit(step: Step) {
    step.Suspend? || Types(step)
  }

  lemma {:induction false} EditFrame(h: Host, step: Step)
    requires IsEdit(step)
    ensures Framed(h, Apply(h, step)) && Apply(h, step).saveClose == h.saveClose
  {}

  /** Steps that may close a view. */
  predicate Closes(step: Step) {
    step.TakeRequest? || step.CloseTab? || step.PressSheet?
  }

  /** Steps about files, their events and their views. */
  predicate Files(step: Step) {
    step.OpenLoaded? || step.SourceEvent? || step.RefreshOne? || step.Save? || step.Duplicate?
  }

  /** Steps that only move handles. */
  predicate Small(step: Step) {
    step.Pick? || step.OpenFailed? || step.EpochChanged? || step.RequestClose? || step.Activate? || step.Deactivate?
    || step.RefreshActive? || step.ShowCompare? || step.HideCompare? || step.ShowContents? || step.HideContents?
    || step.Preview? || step.RetryPreview? || step.OtherTab?
  }

  lemma {:induction false} SmallFrame(h: Host, step: Step)
    requires Small(step)
    ensures var h' := Apply(h, step);
            h'.registry == h.registry && h'.sources == h.sources && h'.operation == h.operation && h'.views == h.views
            && h'.close == h.close && h'.saveClose == h.saveClose && h.refresh <= h'.refresh
  {}

  // ----- the sheet -----

  /** The sheet is open, shows a live view, and that view's document is not being saved. */
  predicate SaveEnabled(h: Host) {
    h.close.Some? && h.close.value in h.registry.views && h.registry.views[h.close.value] in h.registry.documents
    && !Saving(h, h.close.value)
  }

  /** Pressing save in the sheet saves the view, and remembers to close it if the save started. */
  lemma {:induction false} SavePressOutcome(h: Host, fits: bool, failure: Option<FileError>)
    requires SaveEnabled(h)
    ensures var h', saved := SheetPressed(h, SavePressed(fits, failure)), SaveStarted(h, h.close.value, fits, failure);
            h' == saved.(saveClose := if Saving(saved, h.close.value) then Some((h.close.value, saved.operation))
                                      else saved.saveClose)
  {}

  lemma {:induction false} SavePressFrame(h: Host, fits: bool, failure: Option<FileError>)
    ensures SameShape(h.registry, SheetPressed(h, SavePressed(fits, failure)).registry)
    ensures SheetPressed(h, SavePressed(fits, failure)).views == h.views
  {
    if SaveEnabled(h) {
      SavePressOutcome(h, fits, failure);
      SaveFrame(h, h.close.value, fits, failure);
    }
  }
}
