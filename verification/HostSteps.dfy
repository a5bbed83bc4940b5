/**
 What each operation of the document host does to its state: native file events, saves,
 refreshes, closing and the close sheet.  Native calls appear as their outcome.
 */
module HostSteps {
  import opened Registry

  datatype FileError =
    | Unsupported | FileBusy | Cancelled | FileUnavailable | FileReadOnly | TooLarge | Changed | NotAFile | Io

  /** What a native read delivers; `key` is the usable identity of the path, if it has one. */
  datatype FileSnapshot = FileSnapshot(key: Option<Key>, content: Snapshot, writable: bool)

  datatype Event =
    | Loaded(snapshot: FileSnapshot)
    | Saved(operation: nat, version: Version)
    | SaveFailed(operation: nat, failure: FileError)
    | Gone

  datatype Source = Source(read: Option<ReadTicket>, save: Option<(nat, SaveTicket)>)
  datatype View = View(tab: nat, id: ViewId)

  datatype Host = Host(
    registry: Documents,
    views: seq<View>,
    active: Option<ViewId>,
    opening: Option<map<DocId, ReadTicket>>,
    sources: map<DocId, Source>,
    refresh: set<DocId>,
    operation: nat,
    close: Option<ViewId>,
    saveClose: Option<(ViewId, nat)>,
    closeRequested: Option<ViewId>,
    compare: Option<ViewId>,
    contents: Option<ViewId>,
    previews: set<DocId>,
    nextTab: nat)

  function Started(nextTab: nat): Host {
    Host(EMPTY, [], None, None, map[], {}, 0, None, None, None, None, None, {}, nextTab)
  }

  /** What the user does in the close sheet; a save names the outcomes of the size check and the native call. */
  datatype Press = Nothing | SavePressed(fits: bool, failure: Option<FileError>) | DiscardPressed | CancelPressed

  // ----- reading -----

  function MadeUnavailable(h: Host, id: DocId): Host {
    h.(registry := SetAccess(h.registry, id, false, false).0, sources := h.sources - {id})
  }

  /** The registry with every document of `ids` made unavailable. */
  function Revoked(r: Documents, ids: set<DocId>): Documents {
    r.(documents :=
         map id | id in r.documents ::
           if id in ids then
             r.documents[id].(accessEpoch := r.documents[id].accessEpoch + 1, available := false, writable := false)
           else r.documents[id])
  }

  function Invalidated(h: Host): Host {
    h.(registry := Revoked(h.registry, h.sources.Keys), refresh := h.refresh + h.sources.Keys)
  }

  /** `failure` is what the native refresh call returned, if it failed. */
  function RefreshStarted(h: Host, id: DocId, failure: Option<FileError>): (Host, Option<FileError>) {
    if id !in Targets(h.registry.views) || id !in h.registry.documents || id !in h.sources then
      (h, Some(FileUnavailable))
    else if h.sources[id].read.Some? || h.sources[id].save.Some? then (h, Some(FileBusy))
    else if failure.Some? then (h, failure)
    else (h.(sources := h.sources[id := h.sources[id].(read := Some(TicketFor(h.registry, id)))]), None)
  }

  function Refreshed(h: Host, id: DocId, failure: Option<FileError>): Host {
    var (h', error) := RefreshStarted(h, id, failure);
    if error.None? then h'.(refresh := h'.refresh - {id})
    else if error.value.FileBusy? then h'
    else MadeUnavailable(h'.(refresh := h'.refresh - {id}), id)
  }

  function ReadTaken(h: Host, id: DocId): Host {
    if id in h.sources then h.(sources := h.sources[id := h.sources[id].(read := None)]) else h
  }

  /** A read that carries the ticket it was started with. */
  function ReadArrived(h: Host, id: DocId, t: ReadTicket, s: FileSnapshot): Host {
    var (r, observed) := Observe(h.registry, t, s.content);
    if observed.Err? then
      if observed.error.Stale? then
        var h := h.(refresh := h.refresh + {id});
        if !s.writable && id in h.registry.documents then
          h.(registry := SetAccess(h.registry, id, h.registry.documents[id].available, false).0)
        else h
      else h
    else if id in r.documents && (!r.documents[id].available || Writable(r.documents[id]) != s.writable) then
      h.(registry := SetAccess(r, id, true, s.writable).0)
    else h.(registry := r)
  }

  // ----- saving -----

  function SaveTaken(h: Host, id: DocId, operation: nat): (Host, Option<SaveTicket>) {
    if id !in h.sources || h.sources[id].save.None? || h.sources[id].save.value.0 != operation then (h, None)
    else (h.(sources := h.sources[id := h.sources[id].(save := None)]), Some(h.sources[id].save.value.1))
  }

  function SaveArrived(h: Host, id: DocId, operation: nat, version: Version): Host {
    var (taken, t) := SaveTaken(h, id, operation);
    if t.None? then h
    else
      var (r, finished) := FinishSave(taken.registry, t.value, version);
      if finished.Err? then taken
      else
        var h := taken.(registry := r);
        if h.saveClose.Some? && h.saveClose.value.1 == operation
           && h.saveClose.value.0 in r.views && r.views[h.saveClose.value.0] == id then
          h.(saveClose := None, closeRequested := Some(h.saveClose.value.0))
        else h
  }

  function SaveRefused(h: Host, id: DocId, operation: nat, failure: FileError): Host {
    var h := if h.saveClose.Some? && h.saveClose.value.1 == operation then h.(saveClose := None) else h;
    var (taken, t) := SaveTaken(h, id, operation);
    if t.None? then h else FailureSettled(taken, id, t.value, failure)
  }

  function FailureSettled(h: Host, id: DocId, t: SaveTicket, failure: FileError): Host {
    var (r, failed) := FailSave(h.registry, t);
    if failed.Err? then h else Blamed(h.(registry := r), id, failure)
  }

  /** What a failed save says about its source. */
  function Blamed(h: Host, id: DocId, failure: FileError): Host {
    match failure
    case Changed => h.(refresh := h.refresh + {id})
    case FileUnavailable => MadeUnavailable(h, id)
    case FileReadOnly => h.(registry := SetAccess(h.registry, id, true, false).0)
    case _ => h
  }

  function Evented(h: Host, id: DocId, event: Event): Host {
    match event
    case Loaded(s) =>
      if id in h.sources && h.sources[id].read.Some? then ReadArrived(ReadTaken(h, id), id, h.sources[id].read.value, s)
      else h.(refresh := h.refresh + {id})
    case Saved(operation, version) => SaveArrived(h, id, operation, version)
    case SaveFailed(operation, failure) => SaveRefused(h, id, operation, failure)
    case Gone => MadeUnavailable(ReadTaken(h, id), id)
  }

  function SaveStarted(h: Host, view: ViewId, fits: bool, failure: Option<FileError>): Host {
    if view !in h.registry.views || h.registry.views[view] !in h.sources then h
    else
      var id := h.registry.views[view];
      if h.sources[id].read.Some? || h.sources[id].save.Some? || h.operation >= MAX_ID then h
      else
        var (r, t) := PrepareSave(h.registry, view, fits);
        if t.Err? then h
        else if failure.Some? then h.(registry := FailSave(r, t.value).0)
        else
          h.(registry := r, operation := h.operation + 1,
             sources := h.sources[id := h.sources[id].(save := Some((h.operation + 1, t.value)))])
  }

  // ----- opening and closing -----

  function Picked(h: Host, failure: Option<FileError>): Host {
    if h.opening.Some? || failure.Some? then h
    else
      var open := h.registry.documents.Keys * Targets(h.registry.views);
      h.(opening := Some(map id | id in open :: TicketFor(h.registry, id)))
  }

  datatype Joined = Joined(view: ViewId, id: DocId, stale: bool)

  /** The read that opened a known document, compared with it under the ticket of the time it was started. */
  function Compared(r: Documents, existing: map<DocId, ReadTicket>, id: DocId, s: Snapshot): (Documents, Result<bool>) {
    if id in existing then Observe(r, existing[id], s) else (r, Err(Stale))
  }

  /** The registry's part of attaching a loaded file: open or share the document, compare the read, grant access. */
  function Joining(r: Documents, existing: map<DocId, ReadTicket>, key: Key, s: FileSnapshot)
    : (Documents, Option<Joined>)
  {
    var known := key in r.origins;
    var (r0, attempt) := Open(r, key, s.content, s.writable);
    if attempt.Err? || attempt.value !in r0.views then (r, None)
    else
      var view := attempt.value;
      var id := r0.views[view];
      var (r1, observed) := if known then Compared(r0, existing, id, s.content) else (r0, Ok(false));
      var (r2, granted) := SetAccess(r1, id, true, s.writable);
      (r2, if granted.Err? then None else Some(Joined(view, id, observed == Err(Stale))))
  }

  function Attached(h: Host, existing: map<DocId, ReadTicket>, s: FileSnapshot): (Host, bool) {
    if s.key.None? then (h, false)
    else if s.key.value in h.registry.origins && h.registry.origins[s.key.value] in h.registry.documents
            && h.registry.documents[h.registry.origins[s.key.value]].saving.Some? then (h, false)
    else if h.nextTab >= MAX_ID then (h, false)
    else
      var (r, joined) := Joining(h.registry, existing, s.key.value, s);
      if joined.None? then (h.(registry := r), false) else (Shown(h.(registry := r), joined.value), true)
  }

  /** The host's part of attaching: a new source, tab and active view. */
  function Shown(h: Host, joined: Joined): Host {
    h.(sources := h.sources[joined.id := Source(None, None)],
       views := h.views + [View(h.nextTab, joined.view)],
       nextTab := h.nextTab + 1,
       active := Some(joined.view),
       refresh := if joined.stale then h.refresh + {joined.id} else h.refresh)
  }

  function OpeningLoaded(h: Host, s: FileSnapshot): (Host, bool) {
    if h.opening.None? then (h, false) else Attached(h.(opening := None), h.opening.value, s)
  }

  function WithoutView(views: seq<View>, view: ViewId): seq<View> {
    if views == [] then []
    else if views[0].id == view then WithoutView(views[1..], view)
    else [views[0]] + WithoutView(views[1..], view)
  }

  function Without(handle: Option<ViewId>, view: ViewId): Option<ViewId> {
    if handle == Some(view) then None else handle
  }

  /** No handle names `view` any more, and the close sheet is gone. */
  function Unhandled(h: Host, view: ViewId): Host {
    h.(active := Without(h.active, view),
       close := None,
       compare := Without(h.compare, view),
       contents := Without(h.contents, view))
  }

  function Forgotten(h: Host, view: ViewId): Host {
    Unhandled(h, view).(saveClose := if h.saveClose.Some? && h.saveClose.value.0 == view then None else h.saveClose,
                        views := WithoutView(h.views, view))
  }

  function Released(h: Host, id: DocId): Host {
    h.(sources := h.sources - {id}, refresh := h.refresh - {id}, previews := h.previews - {id})
  }

  function ViewDropped(h: Host, view: ViewId, released: Option<DocId>): Host {
    var h := Forgotten(h, view);
    if released.Some? then Released(h, released.value) else h
  }

  function ViewClosedBy(h: Host, view: ViewId, discard: bool): Host {
    var (r, outcome) := Close(h.registry, view, discard);
    match outcome
    case Err(_) => h
    case Ok(NeedsConfirmation) => h.(close := Some(view))
    case Ok(ViewClosed(released)) => ViewDropped(h.(registry := r), view, released)
  }

  function Duplicated(h: Host, view: ViewId): Host {
    if h.nextTab >= MAX_ID || view !in h.registry.views then h
    else
      var (r, copy) := DuplicateDocument(h.registry, h.registry.views[view]);
      if copy.Err? then h
      else
        h.(registry := r, views := h.views + [View(h.nextTab, copy.value)], nextTab := h.nextTab + 1,
           active := Some(copy.value))
  }

  // ----- the close sheet -----

  function RequestTaken(h: Host): Host {
    if h.closeRequested.None? then h
    else ViewClosedBy(h.(closeRequested := None), h.closeRequested.value, false)
  }

  predicate Saving(h: Host, view: ViewId) {
    view in h.registry.views && h.registry.views[view] in h.registry.documents
    && h.registry.documents[h.registry.views[view]].saving.Some?
  }

  function SheetPressed(h: Host, press: Press): Host {
    if h.close.None? then h
    else if h.close.value !in h.registry.views || h.registry.views[h.close.value] !in h.registry.documents then
      h.(close := None)
    else
      var view := h.close.value;
      match press
      case SavePressed(fits, failure) =>
        if Saving(h, view) then h
        else
          var h := SaveStarted(h, view, fits, failure);
          if Saving(h, view) then h.(saveClose := Some((view, h.operation))) else h
      case DiscardPressed => if Saving(h, view) then h else ViewClosedBy(h, view, true)
      case CancelPressed => h.(close := None, saveClose := None)
      case Nothing => h
  }

  // ----- small user actions -----

  function ViewAt(views: seq<View>, tab: nat): Option<ViewId> {
    if views == [] then None else if views[0].tab == tab then Some(views[0].id) else ViewAt(views[1..], tab)
  }

  function Activated(h: Host, tab: nat): Host {
    var view := ViewAt(h.views, tab);
    if view.None? then h
    else h.(active := view, contents := if h.active == view then h.contents else None)
  }

  function TabClosed(h: Host, tab: nat): Host {
    var view := ViewAt(h.views, tab);
    if view.None? then h else ViewClosedBy(h, view.value, false)
  }

  function ActiveRefreshRequested(h: Host): Host {
    if h.active.Some? && h.active.value in h.registry.views then
      h.(refresh := h.refresh + {h.registry.views[h.active.value]})
    else h
  }

  // ----- steps -----

  datatype Step =
    | Pick(failure: Option<FileError>)
    | OpenLoaded(snapshot: FileSnapshot)
    | OpenFailed
    | EpochChanged
    | SourceEvent(id: DocId, event: Event)
    | RefreshOne(id: DocId, failure: Option<FileError>)
    | Save(view: ViewId, fits: bool, failure: Option<FileError>)
    | TakeRequest
    | PressSheet(press: Press)
    | CloseTab(tab: nat)
    | RequestClose(tab: nat)
    | Duplicate(view: ViewId)
    | Activate(tab: nat)
    | Deactivate
    | RefreshActive
    | Suspend
    | Edit(view: ViewId, point: nat)
    | KeepEdits(view: ViewId)
    | Reload(view: ViewId)
    | ShowCompare(view: ViewId)
    | HideCompare
    | ShowContents(view: ViewId)
    | HideContents
    | Preview(view: ViewId)
    | RetryPreview(view: ViewId)
    | OtherTab

  function Apply(h: Host, step: Step): Host {
    match step
    case Pick(failure) => Picked(h, failure)
    case OpenLoaded(s) => OpeningLoaded(h, s).0
    case OpenFailed => h.(opening := None)
    case EpochChanged => h.(refresh := h.refresh + h.sources.Keys)
    case SourceEvent(id, event) => if id in h.registry.documents then Evented(h, id, event) else h
    case RefreshOne(id, failure) => if id in h.refresh then Refreshed(h, id, failure) else h
    case Save(view, fits, failure) => SaveStarted(h, view, fits, failure)
    case TakeRequest => RequestTaken(h)
    case PressSheet(press) => SheetPressed(h, press)
    case CloseTab(tab) => TabClosed(h, tab)
    case RequestClose(tab) => h.(closeRequested := ViewAt(h.views, tab))
    case Duplicate(view) => Duplicated(h, view)
    case Activate(tab) => Activated(h, tab)
    case Deactivate => h.(active := None)
    case RefreshActive => ActiveRefreshRequested(h)
    case Suspend => Invalidated(h)
    case Edit(view, point) => h.(registry := Edited(h.registry, view, point))
    case KeepEdits(view) => h.(registry := KeptEdits(h.registry, view))
    case Reload(view) => h.(registry := Reloaded(h.registry, view))
    case ShowCompare(view) => if view in h.registry.views then h.(compare := Some(view)) else h
    case HideCompare => h.(compare := None)
    case ShowContents(view) => if view in h.registry.views then h.(contents := Some(view)) else h
    case HideContents => h.(contents := None)
    case Preview(view) =>
      if view in h.registry.views then h.(previews := h.previews + {h.registry.views[view]}) else h
    case RetryPreview(view) =>
      if view in h.registry.views then h.(previews := h.previews - {h.registry.views[view]}) else h
    case OtherTab => if h.nextTab < MAX_ID then h.(nextTab := h.nextTab + 1) else h
  }

  /** Steps one after another; `apply` is what one step does. */
  function Fold(apply: (Host, Step) -> Host, h: Host, steps: seq<Step>): Host
    decreases |steps|
  {
    if steps == [] then h else apply(Fold(apply, h, steps[..|steps| - 1]), steps[|steps| - 1])
  }

  function ApplyAll(h: Host, steps: seq<Step>): Host {
    Fold(Apply, h, steps)
  }
}
