/**
 What every step of the document host keeps: no handle names a closed view or document, a source
 never reads and saves at once, and a source saves exactly while its document is marked saving.
 */
module HostInvariant {
  import opened Registry
  import opened HostSteps
  import opened HostFrames

  ghost function Ids(views: seq<View>): set<ViewId> {
    set e | e in views :: e.id
  }

  ghost predicate Distinct(views: seq<View>) {
    forall i, j :: 0 <= i < j < |views| ==> views[i].id != views[j].id && views[i].tab != views[j].tab
  }

  /** The tab list shows every registered view once, under distinct tab ids that were handed out. */
  ghost predicate GoodViews(live: map<ViewId, DocId>, views: seq<View>, nextTab: nat) {
    Ids(views) == live.Keys && Distinct(views) && forall e :: e in views ==> e.tab < nextTab
  }

  predicate Live(live: map<ViewId, DocId>, handle: Option<ViewId>) {
    handle.Some? ==> handle.value in live
  }

  ghost predicate GoodHandles(h: Host) {
    && Live(h.registry.views, h.active) && Live(h.registry.views, h.close)
    && Live(h.registry.views, h.compare) && Live(h.registry.views, h.contents)
    && (h.saveClose.Some? ==> h.saveClose.value.0 in h.registry.views)
  }

  predicate GoodSource(r: Documents, operation: nat, id: DocId, s: Source)
    requires id in r.documents
  {
    && !(s.read.Some? && s.save.Some?)
    && (s.read.Some? ==> s.read.value.document == id)
    && (s.save.Some? <==> r.documents[id].saving.Some?)
    && (s.save.Some? ==> s.save.value.0 <= operation && s.save.value.1.document == id && Holds(r, s.save.value.1))
  }

  ghost predicate GoodSources(r: Documents, operation: nat, sources: map<DocId, Source>) {
    forall id :: id in sources ==> id in r.documents && GoodSource(r, operation, id, sources[id])
  }

  ghost predicate GoodOpening(opening: Option<map<DocId, ReadTicket>>) {
    opening.Some? ==> forall id :: id in opening.value ==> opening.value[id].document == id
  }

  ghost predicate Inv(h: Host) {
    && Valid(h.registry)
    && GoodViews(h.registry.views, h.views, h.nextTab)
    && GoodHandles(h)
    && GoodSources(h.registry, h.operation, h.sources)
    && h.refresh <= h.registry.documents.Keys
    && h.previews <= h.registry.documents.Keys
    && GoodOpening(h.opening)
  }

  lemma {:induction false} StartsGood(nextTab: nat)
    ensures Inv(Started(nextTab))
  {}

  // ----- registry changes that no handle and no source notices -----

  /** Same views, same documents, same save markers. */
  ghost predicate Quiet(r: Documents, r': Documents) {
    && r'.views == r.views
    && r'.documents.Keys == r.documents.Keys
    && (forall id :: id in r.documents ==>
          && r'.documents[id].saving == r.documents[id].saving
          && (r.documents[id].saving.Some? ==> r'.documents[id].sourceEpoch == r.documents[id].sourceEpoch))
  }

  lemma {:induction false} QuietKeepsInv(h: Host, r: Documents)
    requires Inv(h) && Valid(r) && Quiet(h.registry, r)
    ensures Inv(h.(registry := r))
  {
    forall id | id in h.sources ensures GoodSource(r, h.operation, id, h.sources[id]) {
      assert GoodSource(h.registry, h.operation, id, h.sources[id]);
    }
  }

  lemma {:induction false} WithIsQuiet(r: Documents, id: DocId, d: Document)
    requires Valid(r) && id in r.documents
    requires d.key == r.documents[id].key && d.saving == r.documents[id].saving
    requires d.saving.Some? ==> d.sourceEpoch == r.documents[id].sourceEpoch
    ensures Valid(With(r, id, d)) && Quiet(r, With(r, id, d))
  {
    WithKeepsValid(r, id, d);
  }

  lemma {:induction false} ObserveIsQuiet(r: Documents, t: ReadTicket, s: Snapshot)
    requires Valid(r)
    ensures Valid(Observe(r, t, s).0) && Quiet(r, Observe(r, t, s).0)
  {
    var r' := Observe(r, t, s).0;
    if r' != r {
      WithIsQuiet(r, t.document, r'.documents[t.document]);
      assert r' == With(r, t.document, r'.documents[t.document]);
    }
  }

  lemma {:induction false} AccessIsQuiet(r: Documents, id: DocId, available: bool, writable: bool)
    requires Valid(r)
    ensures Valid(SetAccess(r, id, available, writable).0) && Quiet(r, SetAccess(r, id, available, writable).0)
  {
    var r' := SetAccess(r, id, available, writable).0;
    if r' != r {
      WithIsQuiet(r, id, r'.documents[id]);
    }
  }

  lemma {:induction false} RevokeIsQuiet(r: Documents, ids: set<DocId>)
    requires Valid(r)
    ensures Valid(Revoked(r, ids)) && Quiet(r, Revoked(r, ids))
  {
    assert Revoked(r, ids).documents.Keys == r.documents.Keys;
  }

  lemma {:induction false} EditsAreQuiet(r: Documents, view: ViewId, point: nat)
    requires Valid(r)
    ensures Valid(Edited(r, view, point)) && Quiet(r, Edited(r, view, point))
    ensures Valid(KeptEdits(r, view)) && Quiet(r, KeptEdits(r, view))
    ensures Valid(Reloaded(r, view)) && Quiet(r, Reloaded(r, view))
  {
    if view in r.views && r.views[view] in r.documents {
      var id := r.views[view];
      if Edited(r, view, point) != r {
        WithIsQuiet(r, id, Edited(r, view, point).documents[id]);
      }
      if KeptEdits(r, view) != r {
        WithIsQuiet(r, id, KeptEdits(r, view).documents[id]);
      }
      if Reloaded(r, view) != r {
        WithIsQuiet(r, id, Reloaded(r, view).documents[id]);
      }
    }
  }

  // ----- reading -----

  lemma {:induction false} UnavailableKeepsInv(h: Host, id: DocId)
    requires Inv(h)
    ensures Inv(MadeUnavailable(h, id))
  {
    AccessIsQuiet(h.registry, id, false, false);
    QuietKeepsInv(h, SetAccess(h.registry, id, false, false).0);
  }

  lemma {:induction false} ReadTakenKeepsInv(h: Host, id: DocId)
    requires Inv(h)
    ensures Inv(ReadTaken(h, id))
  {
    if id in h.sources {
      SourceKeepsInv(h, id, h.sources[id].(read := None));
    }
  }

  /** A source may change anything but its save. */
  lemma {:induction false} SourceKeepsInv(h: Host, id: DocId, s: Source)
    requires Inv(h) && id in h.registry.documents && GoodSource(h.registry, h.operation, id, s)
    requires s.save.Some? ==> id in h.sources && h.sources[id].save == s.save
    ensures Inv(h.(sources := h.sources[id := s]))
  {
    var h' := h.(sources := h.sources[id := s]);
    assert GoodSources(h'.registry, h'.operation, h'.sources);
  }

  lemma {:induction false} QueueKeepsInv(h: Host, refresh: set<DocId>)
    requires Inv(h) && refresh <= h.registry.documents.Keys
    ensures Inv(h.(refresh := refresh))
  {}

  lemma {:induction false} RefreshedKeepsInv(h: Host, id: DocId, failure: Option<FileError>)
    requires Inv(h)
    ensures Inv(Refreshed(h, id, failure))
  {
    var (h', error) := RefreshStarted(h, id, failure);
    var queue := h.refresh - {id};
    if error.None? {
      SourceKeepsInv(h, id, h.sources[id].(read := Some(TicketFor(h.registry, id))));
      QueueKeepsInv(h', queue);
    } else if !error.value.FileBusy? {
      QueueKeepsInv(h, queue);
      UnavailableKeepsInv(h.(refresh := queue), id);
    }
  }

  lemma {:induction false} AccessKeepsInv(h: Host, id: DocId, available: bool, writable: bool)
    requires Inv(h)
    ensures Inv(h.(registry := SetAccess(h.registry, id, available, writable).0))
  {
    AccessIsQuiet(h.registry, id, available, writable);
    QuietKeepsInv(h, SetAccess(h.registry, id, available, writable).0);
  }

  lemma {:induction false} ReadArrivedKeepsInv(h: Host, id: DocId, t: ReadTicket, s: FileSnapshot)
    requires Inv(h) && id in h.registry.documents
    ensures Inv(ReadArrived(h, id, t, s))
  {
    var (r, observed) := Observe(h.registry, t, s.content);
    if observed.Err? {
      QueueKeepsInv(h, h.refresh + {id});
      AccessKeepsInv(h.(refresh := h.refresh + {id}), id, h.registry.documents[id].available, false);
    } else {
      ReadTakesKeepInv(h, id, t, s);
    }
  }

  lemma {:induction false} ReadTakesKeepInv(h: Host, id: DocId, t: ReadTicket, s: FileSnapshot)
    requires Inv(h)
    ensures var r := Observe(h.registry, t, s.content).0;
            Inv(h.(registry := r)) && Inv(h.(registry := SetAccess(r, id, true, s.writable).0))
  {
    var r := Observe(h.registry, t, s.content).0;
    ObserveIsQuiet(h.registry, t, s.content);
    QuietKeepsInv(h, r);
    AccessKeepsInv(h.(registry := r), id, true, s.writable);
  }

  // ----- saving -----

  /** The document and its source leave the saving state together. */
  lemma {:induction false} SettledKeepsSources(h: Host, id: DocId, d: Document)
    requires Inv(h) && id in h.sources && d.saving.None?
    ensures GoodSources(With(h.registry, id, d), h.operation, h.sources[id := h.sources[id].(save := None)])
  {
    var r, sources := With(h.registry, id, d), h.sources[id := h.sources[id].(save := None)];
    forall a | a in sources ensures a in r.documents && GoodSource(r, h.operation, a, sources[a]) {
      assert GoodSource(h.registry, h.operation, a, h.sources[a]);
    }
  }

  lemma {:induction false} SettledKeepsInv(h: Host, id: DocId, d: Document)
    requires Inv(h) && id in h.sources && d.saving.None? && d.key == h.registry.documents[id].key
    ensures Inv(h.(registry := With(h.registry, id, d), sources := h.sources[id := h.sources[id].(save := None)]))
  {
    WithKeepsValid(h.registry, id, d);
    SettledKeepsSources(h, id, d);
  }

  /** A receipt that the host takes always settles the ticket it was started with. */
  lemma {:induction false} TakenReceiptHolds(h: Host, id: DocId, operation: nat)
    requires Inv(h) && SaveTaken(h, id, operation).1.Some?
    ensures id in h.sources && h.sources[id].save == Some((operation, SaveTaken(h, id, operation).1.value))
    ensures SaveTaken(h, id, operation).1.value.document == id && Holds(h.registry, SaveTaken(h, id, operation).1.value)
  {
    assert GoodSource(h.registry, h.operation, id, h.sources[id]);
  }

  lemma {:induction false} SaveArrivedKeepsInv(h: Host, id: DocId, operation: nat, version: Version)
    requires Inv(h)
    ensures Inv(SaveArrived(h, id, operation, version))
  {
    var (taken, t) := SaveTaken(h, id, operation);
    if t.Some? {
      TakenReceiptHolds(h, id, operation);
      SettledKeepsInv(h, id, FinishSave(h.registry, t.value, version).0.documents[id]);
    }
  }

  lemma {:induction false} BlamedKeepsInv(h: Host, id: DocId, failure: FileError)
    requires Inv(h) && id in h.registry.documents
    ensures Inv(Blamed(h, id, failure))
  {
    match failure
    case Changed => QueueKeepsInv(h, h.refresh + {id});
    case FileUnavailable => UnavailableKeepsInv(h, id);
    case FileReadOnly => AccessKeepsInv(h, id, true, false);
    case _ =>
  }

  lemma {:induction false} SaveFailedKeepsInv(h: Host, id: DocId, operation: nat)
    requires Inv(h) && SaveTaken(h, id, operation).1.Some?
    ensures var (taken, t) := SaveTaken(h, id, operation);
            var (r, failed) := FailSave(taken.registry, t.value);
            failed.Ok? && id in r.documents && Inv(taken.(registry := r))
  {
    var t := SaveTaken(h, id, operation).1.value;
    TakenReceiptHolds(h, id, operation);
    SettledKeepsInv(h, id, FailSave(h.registry, t).0.documents[id]);
  }

  lemma {:induction false} SaveCloseKeepsInv(h: Host, saveClose: Option<(ViewId, nat)>)
    requires Inv(h) && (saveClose.Some? ==> saveClose.value.0 in h.registry.views)
    ensures Inv(h.(saveClose := saveClose))
  {}

  lemma {:induction false} RefusalKeepsInv(h: Host, id: DocId, operation: nat, failure: FileError)
    requires Inv(h) && (h.saveClose.Some? ==> h.saveClose.value.1 != operation)
    ensures Inv(SaveRefused(h, id, operation, failure))
  {
    if SaveTaken(h, id, operation).1.Some? {
      FailureKeepsInv(h, id, operation, failure);
    }
  }

  lemma {:induction false} FailureKeepsInv(h: Host, id: DocId, operation: nat, failure: FileError)
    requires Inv(h) && SaveTaken(h, id, operation).1.Some?
    ensures var (taken, t) := SaveTaken(h, id, operation);
            Inv(FailureSettled(taken, id, t.value, failure))
  {
    var (taken, t) := SaveTaken(h, id, operation);
    SaveFailedKeepsInv(h, id, operation);
    BlamedKeepsInv(taken.(registry := FailSave(taken.registry, t.value).0), id, failure);
  }

  lemma {:induction false} SaveRefusedKeepsInv(h: Host, id: DocId, operation: nat, failure: FileError)
    requires Inv(h)
    ensures Inv(SaveRefused(h, id, operation, failure))
  {
    if h.saveClose.Some? && h.saveClose.value.1 == operation {
      SaveCloseKeepsInv(h, None);
      RefusalKeepsInv(h.(saveClose := None), id, operation, failure);
      assert SaveRefused(h, id, operation, failure) == SaveRefused(h.(saveClose := None), id, operation, failure);
    } else {
      RefusalKeepsInv(h, id, operation, failure);
    }
  }

  lemma {:induction false} EventKeepsInv(h: Host, id: DocId, event: Event)
    requires Inv(h) && id in h.registry.documents
    ensures Inv(Evented(h, id, event))
  {
    match event
    case Loaded(s) =>
      if id in h.sources && h.sources[id].read.Some? {
        ReadTakenKeepsInv(h, id);
        ReadArrivedKeepsInv(ReadTaken(h, id), id, h.sources[id].read.value, s);
      }
    case Saved(operation, version) => SaveArrivedKeepsInv(h, id, operation, version);
    case SaveFailed(operation, failure) => SaveRefusedKeepsInv(h, id, operation, failure);
    case Gone =>
      ReadTakenKeepsInv(h, id);
      UnavailableKeepsInv(ReadTaken(h, id), id);
  }

  /** A save that starts marks its document, takes the next number and becomes the source's save. */
  ghost predicate Starts(h: Host, view: ViewId, h': Host, t: SaveTicket) {
    && view in h.registry.views && h.registry.views[view] in h.sources
    && var id := h.registry.views[view];
    && id in h.registry.documents
    && h.registry.documents[id].saving.None? && h.sources[id].save.None? && h.sources[id].read.None?
    && t.document == id && t.operation == h.registry.nextOperation + 1
    && t.sourceEpoch == h.registry.documents[id].sourceEpoch
    && h' == h.(registry := HandedOut(h.registry, id),
                operation := h.operation + 1,
                sources := h.sources[id := h.sources[id].(save := Some((h.operation + 1, t)))])
  }

  /** Pressing save starts a save or changes nothing but the registry's operation counter. */
  lemma {:induction false} SaveOutcome(h: Host, view: ViewId, fits: bool, failure: Option<FileError>)
    returns (t: Option<SaveTicket>)
    requires Inv(h)
    ensures t.Some? ==> Starts(h, view, SaveStarted(h, view, fits, failure), t.value)
    ensures t.None? ==>
              exists n :: n >= h.registry.nextOperation
                          && SaveStarted(h, view, fits, failure) == h.(registry := h.registry.(nextOperation := n))
  {
    var h' := SaveStarted(h, view, fits, failure);
    t := None;
    if h'.operation != h.operation {
      StartedStarts(h, view, fits, failure);
      t := Some(PrepareSave(h.registry, view, fits).1.value);
    } else if h' == h {
      assert h' == h.(registry := h.registry.(nextOperation := h.registry.nextOperation));
    } else {
      FailUndoesPrepare(h.registry, view, fits);
      assert h' == h.(registry := h.registry.(nextOperation := h.registry.nextOperation + 1));
    }
  }

  lemma {:induction false} StartedStarts(h: Host, view: ViewId, fits: bool, failure: Option<FileError>)
    requires Inv(h) && SaveStarted(h, view, fits, failure).operation != h.operation
    ensures PrepareSave(h.registry, view, fits).1.Ok?
    ensures Starts(h, view, SaveStarted(h, view, fits, failure), PrepareSave(h.registry, view, fits).1.value)
  {
    PrepareHandsOut(h.registry, view, fits);
  }

  lemma {:induction false} PrepareHandsOut(r: Documents, view: ViewId, fits: bool)
    requires PrepareSave(r, view, fits).1.Ok?
    ensures view in r.views && r.views[view] in r.documents && r.documents[r.views[view]].saving.None?
    ensures PrepareSave(r, view, fits).0 == HandedOut(r, r.views[view])
    ensures var t := PrepareSave(r, view, fits).1.value;
            && t.document == r.views[view] && t.operation == r.nextOperation + 1
            && t.sourceEpoch == r.documents[r.views[view]].sourceEpoch
  {}

  lemma {:induction false} StartKeepsSources(h: Host, view: ViewId, h': Host, t: SaveTicket)
    requires Inv(h) && Starts(h, view, h', t)
    ensures GoodSources(h'.registry, h'.operation, h'.sources)
  {
    forall a | a in h'.sources ensures a in h'.registry.documents
        && GoodSource(h'.registry, h'.operation, a, h'.sources[a]) {
      assert GoodSource(h.registry, h.operation, a, h.sources[a]);
    }
  }

  lemma {:induction false} StartKeepsInv(h: Host, view: ViewId, h': Host, t: SaveTicket)
    requires Inv(h) && Starts(h, view, h', t)
    ensures Inv(h')
  {
    StartKeepsSources(h, view, h', t);
    HandingOutKeepsValid(h.registry, h.registry.views[view]);
    assert h'.registry.documents.Keys == h.registry.documents.Keys;
  }

  lemma {:induction false} SaveKeepsInv(h: Host, view: ViewId, fits: bool, failure: Option<FileError>)
    requires Inv(h)
    ensures Inv(SaveStarted(h, view, fits, failure))
  {
    var h' := SaveStarted(h, view, fits, failure);
    var t := SaveOutcome(h, view, fits, failure);
    if t.Some? {
      StartKeepsInv(h, view, h', t.value);
    } else {
      var n :| n >= h.registry.nextOperation && h' == h.(registry := h.registry.(nextOperation := n));
      QuietKeepsInv(h, h.registry.(nextOperation := n));
    }
  }

  // ----- opening and closing -----

  /** One more view, perhaps of a new document; the save markers of the others stay. */
  ghost predicate Grown(r: Documents, r': Documents, view: ViewId) {
    && view !in r.views && view in r'.views && r'.views - {view} == r.views
    && r.documents.Keys <= r'.documents.Keys
    && (forall id :: id in r.documents ==>
          && r'.documents[id].saving == r.documents[id].saving
          && (r.documents[id].saving.Some? ==> r'.documents[id].sourceEpoch == r.documents[id].sourceEpoch))
  }

  lemma {:induction false} QuietAfterGrown(r: Documents, grown: Documents, r': Documents, view: ViewId)
    requires Grown(r, grown, view) && Quiet(grown, r')
    ensures Grown(r, r', view)
  {}

  lemma {:induction false} NewTabKeepsViews(live: map<ViewId, DocId>, views: seq<View>, nextTab: nat,
                                            live': map<ViewId, DocId>, view: ViewId)
    requires GoodViews(live, views, nextTab) && view !in live && view in live' && live' - {view} == live
    ensures GoodViews(live', views + [View(nextTab, view)], nextTab + 1)
  {
    var e := View(nextTab, view);
    var views' := views + [e];
    assert e in views';
    assert live'.Keys == live.Keys + {view};
    assert Ids(views') == Ids(views) + {view} by {
      forall v | v in Ids(views) ensures v in Ids(views') {
        var e :| e in views && e.id == v;
        assert e in views';
      }
    }
    forall i | 0 <= i < |views| ensures views[i].id != view && views[i].tab != nextTab {
      assert views[i] in views && views[i].id in Ids(views);
    }
  }

  lemma {:induction false} AddGrows(r: Documents, d: Document)
    requires ValidIds(r) && d.saving.None?
    ensures Grown(r, Added(r, d), r.nextView + 1)
  {}

  lemma {:induction false} OpenGrows(r: Documents, key: Key, s: Snapshot, writable: bool)
    requires Valid(r) && Open(r, key, s, writable).1.Ok?
    ensures Valid(Open(r, key, s, writable).0)
    ensures Grown(r, Open(r, key, s, writable).0, Open(r, key, s, writable).1.value)
  {
    if key in r.origins {
      DuplicateGrows(r, r.origins[key]);
    } else {
      var d := Document(key, 0, 0, 0, s.version, writable, true, 0, 0, None, None);
      AddKeepsValid(r, d);
      AddGrows(r, d);
    }
  }

  lemma {:induction false} DuplicateGrows(r: Documents, id: DocId)
    requires Valid(r) && id in r.documents && DuplicateDocument(r, id).1.Ok?
    ensures Valid(DuplicateDocument(r, id).0)
    ensures Grown(r, DuplicateDocument(r, id).0, DuplicateDocument(r, id).1.value)
  {
    DuplicateKeepsValid(r, id);
  }

  /** A grown registry with a tab for the new view. */
  ghost function Tabbed(h: Host, r: Documents, view: ViewId): Host {
    h.(registry := r, views := h.views + [View(h.nextTab, view)], nextTab := h.nextTab + 1, active := Some(view))
  }

  lemma {:induction false} GrowKeepsInv(h: Host, r: Documents, view: ViewId)
    requires Inv(h) && Valid(r) && Grown(h.registry, r, view)
    ensures Inv(Tabbed(h, r, view))
  {
    NewTabKeepsViews(h.registry.views, h.views, h.nextTab, r.views, view);
    GrowKeepsSources(h, r, view);
    assert forall v :: v in h.registry.views ==> v in r.views;
  }

  lemma {:induction false} GrowKeepsSources(h: Host, r: Documents, view: ViewId)
    requires Inv(h) && Grown(h.registry, r, view)
    ensures GoodSources(r, h.operation, h.sources)
  {
    forall id | id in h.sources ensures id in r.documents && GoodSource(r, h.operation, id, h.sources[id]) {
      assert GoodSource(h.registry, h.operation, id, h.sources[id]);
    }
  }

  lemma {:induction false} GrantOutcome(r0: Documents, r1: Documents, id: DocId, writable: bool)
    requires Valid(r0) && Valid(r1) && Quiet(r0, r1) && id in r0.documents && r0.documents[id].saving.None?
    ensures var (r2, granted) := SetAccess(r1, id, true, writable);
            granted.Ok? && Valid(r2) && Quiet(r0, r2) && id in r2.documents && r2.documents[id].saving.None?
  {
    AccessIsQuiet(r1, id, true, writable);
  }

  lemma {:induction false} OpenOutcome(r: Documents, key: Key, s: Snapshot, writable: bool)
    requires Valid(r) && Open(r, key, s, writable).1.Ok?
    requires key in r.origins ==> r.documents[r.origins[key]].saving.None?
    ensures var (r0, view) := Open(r, key, s, writable);
            view.value in r0.views && r0.views[view.value] in r0.documents
                && r0.documents[r0.views[view.value]].saving.None?
  {}

  lemma {:induction false} ComparedIsQuiet(r: Documents, existing: map<DocId, ReadTicket>, id: DocId, s: Snapshot)
    requires Valid(r)
    ensures Valid(Compared(r, existing, id, s).0) && Quiet(r, Compared(r, existing, id, s).0)
  {
    if id in existing {
      ObserveIsQuiet(r, existing[id], s);
    }
  }

  lemma {:induction false} GrantGrows(r: Documents, r0: Documents, r1: Documents, view: ViewId, id: DocId,
                                      writable: bool)
    requires Grown(r, r0, view) && Valid(r0) && Valid(r1) && Quiet(r0, r1)
    requires r0.views[view] == id && id in r0.documents && r0.documents[id].saving.None?
    ensures var (r2, granted) := SetAccess(r1, id, true, writable);
            && granted.Ok? && Grown(r, r2, view) && Valid(r2)
            && id in r2.documents && r2.documents[id].saving.None? && r2.views[view] == id
  {
    GrantOutcome(r0, r1, id, writable);
    QuietAfterGrown(r, r0, SetAccess(r1, id, true, writable).0, view);
  }

  /** The registry grew by a view of a document that is not being saved. */
  ghost predicate JoinedWell(r: Documents, r': Documents, joined: Option<Joined>) {
    && joined.Some? && Grown(r, r', joined.value.view) && Valid(r')
    && joined.value.id in r'.documents && r'.documents[joined.value.id].saving.None?
    && r'.views[joined.value.view] == joined.value.id
  }

  lemma {:induction false} JoinKnownGrows(r: Documents, existing: map<DocId, ReadTicket>, key: Key, s: FileSnapshot)
    requires Valid(r) && Open(r, key, s.content, s.writable).1.Ok?
    requires key in r.origins && r.documents[r.origins[key]].saving.None?
    ensures JoinedWell(r, Joining(r, existing, key, s).0, Joining(r, existing, key, s).1)
  {
    var (r0, attempt) := Open(r, key, s.content, s.writable);
    OpenGrows(r, key, s.content, s.writable);
    OpenOutcome(r, key, s.content, s.writable);
    var id := r0.views[attempt.value];
    ComparedIsQuiet(r0, existing, id, s.content);
    GrantGrows(r, r0, Compared(r0, existing, id, s.content).0, attempt.value, id, s.writable);
  }

  lemma {:induction false} JoinNewGrows(r: Documents, existing: map<DocId, ReadTicket>, key: Key, s: FileSnapshot)
    requires Valid(r) && Open(r, key, s.content, s.writable).1.Ok? && key !in r.origins
    ensures JoinedWell(r, Joining(r, existing, key, s).0, Joining(r, existing, key, s).1)
  {
    var (r0, attempt) := Open(r, key, s.content, s.writable);
    OpenGrows(r, key, s.content, s.writable);
    OpenOutcome(r, key, s.content, s.writable);
    GrantGrows(r, r0, r0, attempt.value, r0.views[attempt.value], s.writable);
  }

  /** What attaching does to the registry: it grows by one view of a document that is not being saved, to
      which access is granted. */
  lemma {:induction false} JoinOutcome(r: Documents, existing: map<DocId, ReadTicket>, key: Key, s: FileSnapshot)
    requires Valid(r)
    requires key in r.origins ==> r.documents[r.origins[key]].saving.None?
    ensures var (r', joined) := Joining(r, existing, key, s);
            if joined.None? then r' == r else JoinedWell(r, r', joined)
  {
    if Open(r, key, s.content, s.writable).1.Ok? {
      if key in r.origins {
        JoinKnownGrows(r, existing, key, s);
      } else {
        JoinNewGrows(r, existing, key, s);
      }
    }
  }

  lemma {:induction false} ShownInTwo(h: Host, r: Documents, joined: Joined)
    ensures Shown(h.(registry := r), joined) == Adopted(Tabbed(h, r, joined.view), joined)
  {}

  lemma {:induction false} ShownKeepsInv(h: Host, r: Documents, joined: Joined)
    requires Inv(h) && Grown(h.registry, r, joined.view) && Valid(r)
    requires joined.id in r.documents && r.documents[joined.id].saving.None?
    ensures Inv(Shown(h.(registry := r), joined))
  {
    GrowKeepsInv(h, r, joined.view);
    AdoptKeepsInv(Tabbed(h, r, joined.view), joined);
    ShownInTwo(h, r, joined);
  }

  /** The source and queue part of `Shown`. */
  ghost function Adopted(h: Host, joined: Joined): Host {
    h.(sources := h.sources[joined.id := Source(None, None)],
       refresh := if joined.stale then h.refresh + {joined.id} else h.refresh)
  }

  lemma {:induction false} AdoptKeepsInv(h: Host, joined: Joined)
    requires Inv(h) && joined.id in h.registry.documents && h.registry.documents[joined.id].saving.None?
    ensures Inv(Adopted(h, joined))
  {
    SourceKeepsInv(h, joined.id, Source(None, None));
    QueueKeepsInv(h.(sources := h.sources[joined.id := Source(None, None)]), Adopted(h, joined).refresh);
  }

  lemma {:induction false} AttachedKeepsInv(h: Host, existing: map<DocId, ReadTicket>, s: FileSnapshot)
    requires Inv(h)
    ensures Inv(Attached(h, existing, s).0)
  {
    var h' := Attached(h, existing, s).0;
    if h' != h {
      var (r, joined) := Joining(h.registry, existing, s.key.value, s);
      JoinOutcome(h.registry, existing, s.key.value, s);
      if joined.Some? {
        ShownKeepsInv(h, r, joined.value);
      }
    }
  }

  lemma {:induction false} WithoutViewElements(views: seq<View>, view: ViewId)
    ensures forall e :: e in WithoutView(views, view) <==> e in views && e.id != view
  {
    if views != [] {
      WithoutViewElements(views[1..], view);
      assert views == [views[0]] + views[1..];
    }
  }

  lemma {:induction false} WithoutViewDistinct(views: seq<View>, view: ViewId)
    requires Distinct(views)
    ensures Distinct(WithoutView(views, view))
  {
    if views != [] {
      var rest := WithoutView(views[1..], view);
      WithoutViewDistinct(views[1..], view);
      WithoutViewElements(views[1..], view);
      forall j | 0 <= j < |rest| ensures views[0].id != rest[j].id && views[0].tab != rest[j].tab {
        assert rest[j] in views[1..];
        var k :| 0 <= k < |views| - 1 && views[1..][k] == rest[j];
        assert views[k + 1] == rest[j];
      }
    }
  }

  lemma {:induction false} FewerTabsKeepViews(live: map<ViewId, DocId>, views: seq<View>, nextTab: nat, view: ViewId)
    requires GoodViews(live, views, nextTab)
    ensures GoodViews(live - {view}, WithoutView(views, view), nextTab)
  {
    var kept := WithoutView(views, view);
    WithoutViewElements(views, view);
    WithoutViewDistinct(views, view);
    assert Ids(kept) == Ids(views) - {view} by {
      forall v | v in Ids(views) && v != view ensures v in Ids(kept) {
        var e :| e in views && e.id == v;
        assert e in kept;
      }
    }
    assert (live - {view}).Keys == live.Keys - {view};
  }

  lemma {:induction false} ForgetKeepsHandles(h: Host, view: ViewId, r: Documents)
    requires GoodHandles(h) && r.views == h.registry.views - {view}
    ensures GoodHandles(Forgotten(h.(registry := r), view))
  {}

  lemma {:induction false} ForgetKeepsSources(h: Host, r: Documents)
    requires Inv(h) && h.sources.Keys <= r.documents.Keys
    requires forall id :: id in r.documents ==>
               id in h.registry.documents && r.documents[id] == h.registry.documents[id]
    ensures GoodSources(r, h.operation, h.sources)
  {
    forall id | id in h.sources ensures id in r.documents && GoodSource(r, h.operation, id, h.sources[id]) {
      assert GoodSource(h.registry, h.operation, id, h.sources[id]);
    }
  }

  lemma {:induction false} ForgetKeepsInv(h: Host, view: ViewId, r: Documents)
    requires Inv(h) && Valid(r) && r.views == h.registry.views - {view}
    requires forall id :: id in r.documents ==>
               id in h.registry.documents && r.documents[id] == h.registry.documents[id]
    requires h.sources.Keys <= r.documents.Keys && h.refresh <= r.documents.Keys && h.previews <= r.documents.Keys
    ensures Inv(Forgotten(h.(registry := r), view))
  {
    FewerTabsKeepViews(h.registry.views, h.views, h.nextTab, view);
    ForgetKeepsSources(h, r);
    ForgetKeepsHandles(h, view, r);
  }

  lemma {:induction false} ReleaseKeepsInv(h: Host, id: DocId)
    requires Inv(h)
    ensures Inv(Released(h, id))
  {}

  /** With the last view the document's source, queue entry and preview go first. */
  lemma {:induction false} DropLastKeepsInv(h: Host, view: ViewId, r: Documents, id: DocId)
    requires Inv(h) && Valid(r) && r.views == h.registry.views - {view} && r.documents == h.registry.documents - {id}
    ensures Inv(ViewDropped(h.(registry := r), view, Some(id)))
  {
    ReleaseKeepsInv(h, id);
    ForgetKeepsInv(Released(h, id), view, r);
  }

  lemma {:induction false} DropKeepsInv(h: Host, view: ViewId, r: Documents, released: Option<DocId>)
    requires Inv(h) && Valid(r) && r.views == h.registry.views - {view}
    requires r.documents == if released.Some? then h.registry.documents - {released.value} else h.registry.documents
    ensures Inv(ViewDropped(h.(registry := r), view, released))
  {
    if released.Some? {
      DropLastKeepsInv(h, view, r, released.value);
    } else {
      ForgetKeepsInv(h, view, r);
    }
  }

  lemma {:induction false} CloseKeepsInv(h: Host, view: ViewId, discard: bool)
    requires Inv(h)
    ensures Inv(ViewClosedBy(h, view, discard))
  {
    var (r, outcome) := Close(h.registry, view, discard);
    if outcome.Ok? && outcome.value.ViewClosed? {
      CloseKeepsValid(h.registry, view, discard);
      DropKeepsInv(h, view, r, outcome.value.released);
    }
  }

  lemma {:induction false} DuplicatedKeepsInv(h: Host, view: ViewId)
    requires Inv(h)
    ensures Inv(Duplicated(h, view))
  {
    if view in h.registry.views {
      var id := h.registry.views[view];
      assert id in Targets(h.registry.views);
      var (r, copy) := DuplicateDocument(h.registry, id);
      if copy.Ok? {
        DuplicateGrows(h.registry, id);
        GrowKeepsInv(h, r, copy.value);
        assert Duplicated(h, view) in {h, Tabbed(h, r, copy.value)};
      }
    }
  }

  // ----- sheets and tabs -----

  lemma {:induction false} PressKeepsInv(h: Host, press: Press)
    requires Inv(h)
    ensures Inv(SheetPressed(h, press))
  {
    if h.close.Some? {
      var view := h.close.value;
      match press
      case SavePressed(fits, failure) =>
        SaveKeepsInv(h, view, fits, failure);
        var h' := SaveStarted(h, view, fits, failure);
        if Saving(h', view) {
          SaveCloseKeepsInv(h', Some((view, h'.operation)));
        }
      case DiscardPressed => CloseKeepsInv(h, view, true);
      case CancelPressed =>
      case Nothing =>
    }
  }

  lemma {:induction false} RequestKeepsInv(h: Host)
    requires Inv(h)
    ensures Inv(RequestTaken(h))
  {
    if h.closeRequested.Some? {
      CloseKeepsInv(h.(closeRequested := None), h.closeRequested.value, false);
    }
  }

  lemma {:induction false} ViewAtIsListed(views: seq<View>, tab: nat)
    ensures ViewAt(views, tab).Some? ==> View(tab, ViewAt(views, tab).value) in views
    ensures ViewAt(views, tab).None? ==> forall e :: e in views ==> e.tab != tab
  {
    if views != [] {
      ViewAtIsListed(views[1..], tab);
      assert views == [views[0]] + views[1..];
    }
  }

  lemma {:induction false} ShownViewsHaveDocuments(r: Documents, view: ViewId)
    requires Valid(r) && view in r.views
    ensures r.views[view] in r.documents
  {
    assert r.views[view] in Targets(r.views);
  }

  lemma {:induction false} SuspendKeepsInv(h: Host)
    requires Inv(h)
    ensures Inv(Invalidated(h))
  {
    var r := Revoked(h.registry, h.sources.Keys);
    RevokeIsQuiet(h.registry, h.sources.Keys);
    QuietKeepsInv(h, r);
    QueueKeepsInv(h.(registry := r), h.refresh + h.sources.Keys);
  }

  lemma {:induction false} TypingKeepsInv(h: Host, view: ViewId, point: nat)
    requires Inv(h)
    ensures Inv(h.(registry := Edited(h.registry, view, point)))
    ensures Inv(h.(registry := KeptEdits(h.registry, view)))
    ensures Inv(h.(registry := Reloaded(h.registry, view)))
  {
    EditsAreQuiet(h.registry, view, point);
    QuietKeepsInv(h, Edited(h.registry, view, point));
    QuietKeepsInv(h, KeptEdits(h.registry, view));
    QuietKeepsInv(h, Reloaded(h.registry, view));
  }

  lemma {:induction false} TypingStepKeepsInv(h: Host, step: Step)
    requires Inv(h) && Types(step)
    ensures Inv(Apply(h, step))
  {
    TypingKeepsInv(h, step.view, if step.Edit? then step.point else 0);
  }

  lemma {:induction false} EditKeepsInv(h: Host, step: Step)
    requires Inv(h) && IsEdit(step)
    ensures Inv(Apply(h, step))
  {
    if step.Suspend? {
      SuspendKeepsInv(h);
    } else {
      TypingStepKeepsInv(h, step);
    }
  }

  lemma {:induction false} HandlesKeepInv(h: Host, active: Option<ViewId>, compare: Option<ViewId>,
                                          contents: Option<ViewId>)
    requires Inv(h)
    requires Live(h.registry.views, active) && Live(h.registry.views, compare) && Live(h.registry.views, contents)
    ensures Inv(h.(active := active, compare := compare, contents := contents))
  {}

  /** Steps that move the active, compare or contents handle. */
  predicate MovesHandle(step: Step) {
    step.Activate? || step.Deactivate? || step.ShowCompare? || step.HideCompare? || step.ShowContents?
    || step.HideContents?
  }

  lemma {:induction false} HandleMoveKeepsInv(h: Host, step: Step)
    requires Inv(h) && MovesHandle(step)
    ensures Inv(Apply(h, step))
  {
    var h' := Apply(h, step);
    if step.Activate? {
      ViewAtIsListed(h.views, step.tab);
    }
    HandlesKeepInv(h, h'.active, h'.compare, h'.contents);
    assert h' == h.(active := h'.active, compare := h'.compare, contents := h'.contents);
  }

  lemma {:induction false} QueueMoveKeepsInv(h: Host, step: Step)
    requires Inv(h) && (step.RefreshActive? || step.EpochChanged?)
    ensures Inv(Apply(h, step))
  {
    var h' := Apply(h, step);
    if h.active.Some? { ShownViewsHaveDocuments(h.registry, h.active.value); }
    QueueKeepsInv(h, h'.refresh);
    assert h' == h.(refresh := h'.refresh);
  }

  lemma {:induction false} PreviewKeepsInv(h: Host, view: ViewId)
    requires Inv(h) && view in h.registry.views
    ensures Inv(h.(previews := h.previews + {h.registry.views[view]}))
  {
    ShownViewsHaveDocuments(h.registry, view);
  }

  lemma {:induction false} SmallKeepsInv(h: Host, step: Step)
    requires Inv(h) && Small(step)
    ensures Inv(Apply(h, step))
  {
    if MovesHandle(step) {
      HandleMoveKeepsInv(h, step);
    } else if step.RefreshActive? || step.EpochChanged? {
      QueueMoveKeepsInv(h, step);
    } else if step.Preview? && step.view in h.registry.views {
      PreviewKeepsInv(h, step.view);
    }
  }

  lemma {:induction false} ClosingKeepsInv(h: Host, step: Step)
    requires Inv(h) && Closes(step)
    ensures Inv(Apply(h, step))
  {
    match step
    case TakeRequest => RequestKeepsInv(h);
    case PressSheet(press) => PressKeepsInv(h, press);
    case CloseTab(tab) =>
      if ViewAt(h.views, tab).Some? { CloseKeepsInv(h, ViewAt(h.views, tab).value, false); }
  }

  lemma {:induction false} FilesKeepInv(h: Host, step: Step)
    requires Inv(h) && Files(step)
    ensures Inv(Apply(h, step))
  {
    match step
    case OpenLoaded(s) =>
      if h.opening.Some? { AttachedKeepsInv(h.(opening := None), h.opening.value, s); }
    case SourceEvent(id, event) =>
      if id in h.registry.documents { EventKeepsInv(h, id, event); }
    case RefreshOne(id, failure) => RefreshedKeepsInv(h, id, failure);
    case Save(view, fits, failure) => SaveKeepsInv(h, view, fits, failure);
    case Duplicate(view) => DuplicatedKeepsInv(h, view);
  }

  /** Every step, whatever the native side delivers, keeps the invariant. */
  lemma {:induction false} StepKeepsInv(h: Host, step: Step)
    requires Inv(h)
    ensures Inv(Apply(h, step))
  {
    if Closes(step) {
      ClosingKeepsInv(h, step);
    } else if Files(step) {
      FilesKeepInv(h, step);
    } else if IsEdit(step) {
      EditKeepsInv(h, step);
    } else {
      SmallKeepsInv(h, step);
    }
  }
}
