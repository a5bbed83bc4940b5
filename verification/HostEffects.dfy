/**
 What each step of the host achieves, and exactly when: saving, attaching, duplicating, re-reading, suspending and
 the small steps, in terms of the state before and after.
 */
module HostEffects {
  import opened Registry
  import opened HostSteps
  import opened HostFrames
  import opened HostInvariant
  import opened HostSaves
  import opened HostSheets

  // ----- saving -----

  /** What a save needs: a live view of a writable document with an idle source, no conflict left undecided, a text
      within the size limit, numbers to hand out, and a native call that succeeds. */
  predicate CanSave(h: Host, view: ViewId, fits: bool, failure: Option<FileError>) {
    && view in h.registry.views && h.registry.views[view] in h.sources && h.registry.views[view] in h.registry.documents
    && var id := h.registry.views[view];
       var d := h.registry.documents[id];
       && h.sources[id].read.None? && h.sources[id].save.None?
       && d.available && d.writable && (d.conflict.Some? ==> d.conflict.value.keptEdits)
       && fits && failure.None? && h.operation < MAX_ID && h.registry.nextOperation < MAX_ID
  }

  /** A save starts if and only if nothing is in its way; it then takes the text as it is now, expects the version the
      user last saw, and marks the document. */
  lemma {:induction false} SaveExactly(h: Host, view: ViewId, fits: bool, failure: Option<FileError>)
    requires Inv(h)
    ensures var h' := Apply(h, Save(view, fits, failure));
            && (h'.operation == if CanSave(h, view, fits, failure) then h.operation + 1 else h.operation)
            && (!CanSave(h, view, fits, failure) ==>
                 h' == h.(registry := h.registry.(nextOperation := h'.registry.nextOperation)))
    ensures CanSave(h, view, fits, failure) ==>
              var id := h.registry.views[view];
              var d, h' := h.registry.documents[id], Apply(h, Save(view, fits, failure));
              && InFlight(h', id).Some? && InFlight(h', id).value.0 == h.operation + 1
              && var t := InFlight(h', id).value.1;
                 && t.document == id && t.point == d.point
                 && t.expected == (if d.conflict.Some? then d.conflict.value.version else d.version)
                 && h'.registry.documents[id] == d.(saving := Some(t.operation))
  {
    if CanSave(h, view, fits, failure) {
      assert GoodSource(h.registry, h.operation, h.registry.views[view], h.sources[h.registry.views[view]]);
    } else {
      Unsaved(h, view, fits, failure);
    }
  }

  lemma {:induction false} Unsaved(h: Host, view: ViewId, fits: bool, failure: Option<FileError>)
    requires Inv(h) && !CanSave(h, view, fits, failure)
    ensures var h' := SaveStarted(h, view, fits, failure);
            h' == h.(registry := h.registry.(nextOperation := h'.registry.nextOperation))
  {
    var t := SaveOutcome(h, view, fits, failure);
  }

  /** A document after its save failed for this reason. */
  function FailedAs(d: Document, failure: FileError): Document {
    match failure
    case FileUnavailable =>
      d.(saving := None, accessEpoch := d.accessEpoch + 1, available := false, writable := false)
    case FileReadOnly => d.(saving := None, accessEpoch := d.accessEpoch + 1, available := true, writable := false)
    case _ => d.(saving := None)
  }

  /** What the failure of the save in flight leaves behind, reason by reason: the text is as unsaved as before. */
  lemma {:induction false} FailureExactly(h: Host, id: DocId, number: nat, failure: FileError)
    requires Inv(h) && InFlight(h, id).Some? && InFlight(h, id).value.0 == number
    ensures id in h.registry.documents
    ensures var h' := Apply(h, SourceEvent(id, SaveFailed(number, failure)));
            && h'.registry == With(h.registry, id, FailedAs(h.registry.documents[id], failure))
            && h'.refresh == (if failure.Changed? then h.refresh + {id} else h.refresh)
            && (id in h'.sources <==> !failure.FileUnavailable?)
  {
    TakenReceiptHolds(h, id, number);
    FailureSettles(h, id, number, InFlight(h, id).value.1, failure);
  }

  lemma {:induction false} FailureSettles(h: Host, id: DocId, number: nat, t: SaveTicket, failure: FileError)
    requires InFlight(h, id) == Some((number, t)) && t.document == id && Holds(h.registry, t)
    ensures var h' := Apply(h, SourceEvent(id, SaveFailed(number, failure)));
            && h'.registry == With(h.registry, id, FailedAs(h.registry.documents[id], failure))
            && h'.refresh == (if failure.Changed? then h.refresh + {id} else h.refresh)
            && (id in h'.sources <==> !failure.FileUnavailable?)
  {
    var failed := AfterFailure(h, id, number);
    FailureIsBlamed(h, id, number, t, failure);
    BlameExactly(failed, id, failure);
    WithTwice(h.registry, id, failed.registry.documents[id], FailedAs(failed.registry.documents[id], failure));
  }

  lemma {:induction false} WithTwice(r: Documents, id: DocId, d: Document, d': Document)
    ensures With(With(r, id, d), id, d') == With(r, id, d')
  {
    assert With(With(r, id, d), id, d').documents == With(r, id, d').documents;
  }

  lemma {:induction false} BlameExactly(h: Host, id: DocId, failure: FileError)
    requires id in h.registry.documents && h.registry.documents[id].saving.None? && id in h.sources
    ensures var h' := Blamed(h, id, failure);
            && h'.registry == With(h.registry, id, FailedAs(h.registry.documents[id], failure))
            && h'.refresh == (if failure.Changed? then h.refresh + {id} else h.refresh)
            && (id in h'.sources <==> !failure.FileUnavailable?)
  {
    assert With(h.registry, id, h.registry.documents[id]).documents == h.registry.documents;
  }

  // ----- opening -----

  /** Room for one more view, and for one more document if the file is not open yet. */
  predicate HasRoom(r: Documents, key: Key, readable: bool) {
    && |r.views| < MAX_VIEWS && r.nextView < MAX_ID
    && (key !in r.origins ==> |r.documents| < MAX_DOCUMENTS && readable && r.nextDocument < MAX_ID)
  }

  predicate CanAttach(h: Host, s: FileSnapshot) {
    && h.opening.Some? && s.key.Some? && h.nextTab < MAX_ID && HasRoom(h.registry, s.key.value, s.content.readable)
    && (s.key.value in h.registry.origins && h.registry.origins[s.key.value] in h.registry.documents ==>
          h.registry.documents[h.registry.origins[s.key.value]].saving.None?)
  }

  lemma {:induction false} JoinsExactly(r: Documents, existing: map<DocId, ReadTicket>, key: Key, s: FileSnapshot)
    requires Valid(r) && (key in r.origins ==> r.documents[r.origins[key]].saving.None?)
    ensures Joining(r, existing, key, s).1.Some? <==> HasRoom(r, key, s.content.readable)
    ensures HasRoom(r, key, s.content.readable) ==>
              var (r', joined) := Joining(r, existing, key, s);
              && joined.value.view == r.nextView + 1
              && joined.value.id == if key in r.origins then r.origins[key] else r.nextDocument + 1
  {
    JoinOutcome(r, existing, key, s);
    if Open(r, key, s.content, s.writable).1.Ok? {
      if key in r.origins {
        JoinKnownGrows(r, existing, key, s);
      } else {
        JoinNewGrows(r, existing, key, s);
      }
    }
  }

  /** Nothing but room can be missing. */
  predicate MayJoin(h: Host, s: FileSnapshot) {
    && h.opening.Some? && s.key.Some? && h.nextTab < MAX_ID
    && (s.key.value in h.registry.origins && h.registry.origins[s.key.value] in h.registry.documents ==>
          h.registry.documents[h.registry.origins[s.key.value]].saving.None?)
  }

  lemma {:induction false} AttachTries(h: Host, s: FileSnapshot)
    requires MayJoin(h, s)
    ensures var (r, joined) := Joining(h.registry, h.opening.value, s.key.value, s);
            var tried := h.(opening := None, registry := r);
            OpeningLoaded(h, s) == if joined.None? then (tried, false) else (Shown(tried, joined.value), true)
  {}

  lemma {:induction false} AttachRefuses(h: Host, s: FileSnapshot)
    requires !MayJoin(h, s)
    ensures OpeningLoaded(h, s) == (h.(opening := None), false)
  {}

  /** A file that was asked for is attached if and only if there is room and its document is not being saved.  It then
      gets a new view in a new tab at the end, which becomes the active one, and a fresh source; otherwise nothing but
      the request changes. */
  lemma {:induction false} AttachExactly(h: Host, s: FileSnapshot)
    requires Inv(h)
    ensures OpeningLoaded(h, s).1 <==> CanAttach(h, s)
    ensures !CanAttach(h, s) ==> Apply(h, OpenLoaded(s)) == h.(opening := None)
    ensures CanAttach(h, s) ==> AttachShows(h, Apply(h, OpenLoaded(s)), s.key.value)
  {
    if MayJoin(h, s) {
      JoinShows(h, s);
    } else {
      AttachRefuses(h, s);
    }
  }

  lemma {:induction false} JoinShows(h: Host, s: FileSnapshot)
    requires Inv(h) && MayJoin(h, s)
    ensures var (h', attached) := OpeningLoaded(h, s);
            && (attached <==> HasRoom(h.registry, s.key.value, s.content.readable))
            && (if attached then AttachShows(h, h', s.key.value) else h' == h.(opening := None))
  {
    var (r, joined) := Joining(h.registry, h.opening.value, s.key.value, s);
    JoinsExactly(h.registry, h.opening.value, s.key.value, s);
    JoinOutcome(h.registry, h.opening.value, s.key.value, s);
    AttachTries(h, s);
    if joined.Some? {
      ShownShows(h, r, joined.value, s.key.value);
    }
  }

  lemma {:induction false} ShownShows(h: Host, r: Documents, joined: Joined, key: Key)
    requires joined.view == h.registry.nextView + 1 && joined.view in r.views && r.views[joined.view] == joined.id
    requires joined.id == if key in h.registry.origins then h.registry.origins[key] else h.registry.nextDocument + 1
    ensures AttachShows(h, Shown(h.(opening := None, registry := r), joined), key)
  {}

  predicate AttachShows(h: Host, h': Host, key: Key) {
    var view, r := h.registry.nextView + 1, h.registry;
    var id := if key in r.origins then r.origins[key] else r.nextDocument + 1;
    && h'.views == h.views + [View(h.nextTab, view)] && h'.nextTab == h.nextTab + 1
    && h'.active == Some(view) && h'.opening.None?
    && h'.sources == h.sources[id := Source(None, None)]
    && view in h'.registry.views && h'.registry.views[view] == id
  }

  /** A file that was not open becomes a clean document at the version that was read, with the access it came with. */
  lemma {:induction false} NewFileOpens(h: Host, s: FileSnapshot)
    requires Inv(h) && CanAttach(h, s) && s.key.value !in h.registry.origins
    ensures var h', id := Apply(h, OpenLoaded(s)), h.registry.nextDocument + 1;
            h'.refresh == h.refresh && id in h'.registry.documents && IsNew(h'.registry.documents[id], s)
  {
    NewGrant(h.registry, h.opening.value, s.key.value, s);
    AttachTries(h, s);
  }

  predicate IsNew(d: Document, s: FileSnapshot) {
    && s.key == Some(d.key) && d.version == s.content.version && !Dirty(d) && d.saving.None?
    && d.available && d.writable == s.writable
  }

  lemma {:induction false} NewGrant(r: Documents, existing: map<DocId, ReadTicket>, key: Key, s: FileSnapshot)
    requires key !in r.origins && HasRoom(r, key, s.content.readable) && s.key == Some(key)
    ensures var (r', joined) := Joining(r, existing, key, s);
            && joined.Some? && !joined.value.stale && r.nextDocument + 1 in r'.documents
            && IsNew(r'.documents[r.nextDocument + 1], s)
  {}

  /** A file that was open already keeps its document, which gets the access the file came with; a read that is older
      than the document is read again. */
  lemma {:induction false} OpenFileIsShared(h: Host, s: FileSnapshot)
    requires Inv(h) && CanAttach(h, s) && s.key.value in h.registry.origins
    ensures var h', id := Apply(h, OpenLoaded(s)), h.registry.origins[s.key.value];
            && id in h.registry.documents && id in h'.registry.documents
            && h'.registry.documents[id].available && h'.registry.documents[id].writable == s.writable
            && (id !in h.opening.value || !Fresh(h.registry.documents[id], h.opening.value[id]) ==>
                  id in h'.refresh && h'.registry.documents[id].revision == h.registry.documents[id].revision)
  {
    var id := h.registry.origins[s.key.value];
    JoinsExactly(h.registry, h.opening.value, s.key.value, s);
    SharedGrant(h.registry, h.opening.value, s.key.value, s);
  }

  lemma {:induction false} SharedGrant(r: Documents, existing: map<DocId, ReadTicket>, key: Key, s: FileSnapshot)
    requires Valid(r) && key in r.origins && r.documents[r.origins[key]].saving.None?
    requires HasRoom(r, key, s.content.readable)
    requires forall id :: id in existing ==> existing[id].document == id
    ensures var (r', joined), id := Joining(r, existing, key, s), r.origins[key];
            && joined.Some? && id in r.documents && id in r'.documents
            && r'.documents[id].available && r'.documents[id].writable == s.writable
            && (id !in existing || !Fresh(r.documents[id], existing[id]) ==>
                  joined.value.stale && r'.documents[id].revision == r.documents[id].revision)
  {
    var r0 := DuplicateDocument(r, r.origins[key]).0;
    assert r0.documents == r.documents;
  }

  /** Picking a file remembers, for every open document, a ticket of its present state. */
  lemma {:induction false} PickTakesTickets(h: Host)
    requires Inv(h) && h.opening.None?
    ensures var opening := Apply(h, Pick(None)).opening;
            && opening.Some? && opening.value.Keys == h.registry.documents.Keys
            && forall id :: id in h.registry.documents ==>
                 opening.value[id].document == id && Fresh(h.registry.documents[id], opening.value[id])
  {}

  /** A second view of a document gets its own tab at the end and becomes active, if there is room. */
  lemma {:induction false} DuplicateExactly(h: Host, view: ViewId)
    requires view in h.registry.views
    ensures var h', copy := Duplicated(h, view), h.registry.nextView + 1;
            if h.nextTab < MAX_ID && |h.registry.views| < MAX_VIEWS && h.registry.nextView < MAX_ID then
              h' == h.(registry := h.registry.(nextView := copy,
                                               views := h.registry.views[copy := h.registry.views[view]]),
                       views := h.views + [View(h.nextTab, copy)], nextTab := h.nextTab + 1, active := Some(copy))
            else h' == h
  {}

  // ----- reading -----

  /** A read nobody asked for, as the system makes on its own, is never taken over; it asks for a proper one. */
  lemma {:induction false} UnaskedReadAsksAgain(h: Host, id: DocId, s: FileSnapshot)
    requires id in h.registry.documents && (id in h.sources ==> h.sources[id].read.None?)
    ensures Apply(h, SourceEvent(id, Loaded(s))) == h.(refresh := h.refresh + {id})
  {}

  /** When a read of a document is compared: its outcome, exactly. */
  lemma {:induction false} ObserveExactly(r: Documents, t: ReadTicket, s: Snapshot)
    ensures var outcome := Observe(r, t, s).1;
            if t.document !in r.documents then outcome == Err(Closed)
            else
              var d, d' := r.documents[t.document], Observe(r, t, s).0.documents[t.document];
              if !Fresh(d, t) then outcome == Err(Stale) && d' == d
              else if d.saving.Some? then outcome == Err(Busy) && d' == d
              else if !s.readable then outcome == Err(Refused) && d' == d
              else
                && outcome.Ok? && d'.available == d.available && d'.writable == d.writable
                && (s.version == d.version ==> d' == d.(conflict := None, sourceEpoch := d'.sourceEpoch))
                && (s.version != d.version && Dirty(d) ==> d'.conflict.Some? && d'.conflict.value.version == s.version)
                && (s.version != d.version && !Dirty(d) ==> d'.version == s.version && !Dirty(d'))
                && (outcome.value <==> d' != d) && (d' != d ==> d'.sourceEpoch == d.sourceEpoch + 1)
  {}

  /** One try of a queued re-read: a busy source stays queued and untouched; a document without a source, or whose
      native call fails otherwise, leaves the queue, unavailable and without a source. */
  lemma {:induction false} RefreshExactly(h: Host, id: DocId, failure: Option<FileError>)
    requires Inv(h) && id in h.refresh
    ensures var h' := Apply(h, RefreshOne(id, failure));
            var idle := id in h.sources && h.sources[id].read.None? && h.sources[id].save.None?;
            if id in h.sources && !idle then h' == h
            else if idle && failure.None? then
              h' == h.(refresh := h.refresh - {id},
                  sources := h.sources[id := Source(Some(TicketFor(h.registry, id)), None)])
            else if idle && failure == Some(FileBusy) then h' == h
            else
              && h'.refresh == h.refresh - {id} && h'.sources == h.sources - {id}
              && id in h'.registry.documents && !h'.registry.documents[id].available
                   && !h'.registry.documents[id].writable
  {
    assert h.registry.documents.Keys == Targets(h.registry.views);
  }

  /** Suspending revokes access to every document with a source, asks for its re-read, and leaves the rest alone. */
  lemma {:induction false} SuspendExactly(h: Host, id: DocId)
    requires Inv(h) && id in h.registry.documents
    ensures var h' := Apply(h, Suspend);
            && h'.refresh == h.refresh + h.sources.Keys && h'.sources == h.sources && id in h'.registry.documents
            && var d, d' := h.registry.documents[id], h'.registry.documents[id];
               if id in h.sources then
                 d' == d.(accessEpoch := d.accessEpoch + 1, available := false, writable := false)
               else d' == d
  {}

  /** A file reported gone leaves its document open, unavailable and without a source. */
  lemma {:induction false} GoneExactly(h: Host, id: DocId)
    requires id in h.registry.documents
    ensures var h', d := Apply(h, SourceEvent(id, Gone)), h.registry.documents[id];
            && h'.sources == h.sources - {id} && h'.refresh == h.refresh
            && h'.registry == With(h.registry, id, d.(accessEpoch := d.accessEpoch + 1, available := false,
                 writable := false))
  {}

  // ----- the user -----

  /** Typing takes effect exactly on a writable document: a new revision at the new place in the history. */
  lemma {:induction false} EditExactly(h: Host, view: ViewId, point: nat)
    requires Inv(h) && view in h.registry.views
    ensures h.registry.views[view] in h.registry.documents
    ensures var id := h.registry.views[view];
            var d, h' := h.registry.documents[id], Apply(h, Edit(view, point));
            h' == if d.writable && d.available then
                    h.(registry := With(h.registry, id, d.(revision := d.revision + 1, point := point)))
                  else h
  {
    ShownViewsHaveDocuments(h.registry, view);
  }

  /** Keeping edits lets a conflicting document be saved over the version the user has seen; reloading makes it clean at
      that version. */
  lemma {:induction false} ConflictIsDecided(r: Documents, view: ViewId)
    requires view in r.views && r.views[view] in r.documents && r.documents[r.views[view]].conflict.Some?
    requires r.documents[r.views[view]].saving.None? && r.documents[r.views[view]].available
    requires r.documents[r.views[view]].writable && r.nextOperation < MAX_ID
    ensures !r.documents[r.views[view]].conflict.value.keptEdits ==> PrepareSave(r, view, true).1 == Err(Conflict)
    ensures var id, seen := r.views[view], r.documents[r.views[view]].conflict.value.version;
            var kept, d := PrepareSave(KeptEdits(r, view), view, true).1, Reloaded(r, view).documents[id];
            && kept.Ok? && kept.value.expected == seen && kept.value.point == r.documents[id].point
            && !Dirty(d) && d.version == seen && d.revision == r.documents[id].revision + 1
  {}

  /** A tab that is chosen becomes active, and another view's contents sheet goes. */
  lemma {:induction false} ActivateExactly(h: Host, e: View)
    requires Inv(h) && e in h.views
    ensures Apply(h, Activate(e.tab)) ==
            h.(active := Some(e.id), contents := if h.active == Some(e.id) then h.contents else None)
    ensures Apply(h, RequestClose(e.tab)) == h.(closeRequested := Some(e.id))
  {
    TabNamesOne(h.views, e);
  }

  /** A tab that does not exist changes nothing but a pending request. */
  lemma {:induction false} UnknownTab(h: Host, tab: nat)
    requires forall e :: e in h.views ==> e.tab != tab
    ensures Apply(h, Activate(tab)) == h && Apply(h, CloseTab(tab)) == h
    ensures Apply(h, RequestClose(tab)) == h.(closeRequested := None)
  {
    ViewAtIsListed(h.views, tab);
  }

  /** Asking for a re-read of the active view queues its document. */
  lemma {:induction false} RefreshActiveExactly(h: Host)
    requires Inv(h)
    ensures Apply(h, RefreshActive) ==
            if h.active.Some? then h.(refresh := h.refresh + {h.registry.views[h.active.value]}) else h
  {}

  /** Cancelling closes the sheet and forgets a pending save-then-close. */
  lemma {:induction false} CancelExactly(h: Host)
    requires Inv(h) && h.close.Some?
    ensures SheetPressed(h, CancelPressed) == h.(close := None, saveClose := None)
  {
    ShownViewsHaveDocuments(h.registry, h.close.value);
  }

  /** While the document is being saved only cancelling works. */
  lemma {:induction false} SavingSheetWaits(h: Host, fits: bool, failure: Option<FileError>)
    requires h.close.Some? && Saving(h, h.close.value)
    ensures SheetPressed(h, SavePressed(fits, failure)) == h && SheetPressed(h, DiscardPressed) == h
  {}

  /** Pressing save saves the view, as saving from anywhere does; if the save starts, the view waits for exactly it. */
  lemma {:induction false} SavePressExactly(h: Host, fits: bool, failure: Option<FileError>)
    requires Inv(h) && SaveEnabled(h)
    ensures var h', saved := SheetPressed(h, SavePressed(fits, failure)), SaveStarted(h, h.close.value, fits, failure);
            h' == if saved.operation > h.operation then saved.(saveClose := Some((h.close.value, h.operation + 1)))
                else saved
  {
    SavePressOutcome(h, fits, failure);
    MarkedWhenStarted(h, fits, failure);
  }

  lemma {:induction false} MarkedWhenStarted(h: Host, fits: bool, failure: Option<FileError>)
    requires Inv(h) && SaveEnabled(h)
    ensures var saved := SaveStarted(h, h.close.value, fits, failure);
            && (Saving(saved, h.close.value) <==> saved.operation > h.operation)
            && saved.operation <= h.operation + 1
  {
    var t := SaveOutcome(h, h.close.value, fits, failure);
  }
}
