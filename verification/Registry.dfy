/**
 The registry of open documents: shared text state, views, read tickets and save tickets.
 Text is abstracted to its revision, its place in the edit history and the saved place;
 all documents of this host have local origins.
 */
module Registry {

  type DocId = nat
  type ViewId = nat
  type Key = nat
  type Version = nat

  const MAX_DOCUMENTS: nat := 8
  const MAX_VIEWS: nat := 24
  const MAX_ID: nat := 0xFFFF_FFFF_FFFF_FFFF

  datatype Option<T> = None | Some(value: T)
  datatype Error = Closed | ReadOnly | Unavailable | Stale | Conflict | Busy | Capacity | Refused
  datatype Result<T> = Ok(value: T) | Err(error: Error)

  datatype Change = Change(version: Version, keptEdits: bool)

  datatype Document = Document(
    key: Key,
    revision: nat, point: nat, savedPoint: nat,
    version: Version,
    writable: bool, available: bool,
    sourceEpoch: nat, accessEpoch: nat,
    conflict: Option<Change>,
    saving: Option<nat>)

  datatype ReadTicket = ReadTicket(document: DocId, sourceEpoch: nat, accessEpoch: nat, revision: nat, version: Version)
  datatype SaveTicket = SaveTicket(document: DocId, sourceEpoch: nat, operation: nat, point: nat, expected: Version)

  /** Bytes read from the source: their version, and whether they are acceptable text. */
  datatype Snapshot = Snapshot(version: Version, readable: bool)

  datatype CloseOutcome = NeedsConfirmation | ViewClosed(released: Option<DocId>)

  datatype Documents = Documents(
    documents: map<DocId, Document>,
    origins: map<Key, DocId>,
    views: map<ViewId, DocId>,
    nextDocument: nat, nextView: nat, nextOperation: nat)

  const EMPTY := Documents(map[], map[], map[], 0, 0, 0)

  predicate Dirty(d: Document) {
    d.point != d.savedPoint || d.conflict.Some?
  }

  /** Effective write access. */
  predicate Writable(d: Document) {
    d.writable && d.available
  }

  predicate Fresh(d: Document, t: ReadTicket) {
    && d.sourceEpoch == t.sourceEpoch && d.accessEpoch == t.accessEpoch
    && d.revision == t.revision && d.version == t.version
  }

  function With(r: Documents, id: DocId, d: Document): Documents {
    r.(documents := r.documents[id := d])
  }

  /** The documents some view shows. */
  function Targets(views: map<ViewId, DocId>): set<DocId> {
    set v | v in views :: views[v]
  }

  lemma {:induction false} TargetsAdd(views: map<ViewId, DocId>, view: ViewId, id: DocId)
    requires view !in views
    ensures Targets(views[view := id]) == Targets(views) + {id}
  {
    var more := views[view := id];
    assert more[view] == id;
    forall x | x in Targets(views) ensures x in Targets(more) {
      var v :| v in views && views[v] == x;
      assert v in more && more[v] == x;
    }
  }

  lemma {:induction false} TargetsRemove(views: map<ViewId, DocId>, view: ViewId)
    requires view in views
    ensures Targets(views - {view}) ==
            if exists v :: v in views && views[v] == views[view] && v != view then Targets(views)
            else Targets(views) - {views[view]}
  {
    var fewer := views - {view};
    forall x | x in Targets(views) && x != views[view] ensures x in Targets(fewer) {
      var v :| v in views && views[v] == x;
      assert v in fewer && fewer[v] == x;
    }
    if v :| v in views && views[v] == views[view] && v != view {
      assert v in fewer && fewer[v] == views[view];
    }
  }

  function DuplicateDocument(r: Documents, id: DocId): (Documents, Result<ViewId>) {
    if |r.views| >= MAX_VIEWS || r.nextView >= MAX_ID then (r, Err(Capacity))
    else (r.(nextView := r.nextView + 1, views := r.views[r.nextView + 1 := id]), Ok(r.nextView + 1))
  }

  function Open(r: Documents, key: Key, s: Snapshot, writable: bool): (Documents, Result<ViewId>) {
    if key in r.origins then DuplicateDocument(r, r.origins[key])
    else if |r.documents| >= MAX_DOCUMENTS || |r.views| >= MAX_VIEWS then (r, Err(Capacity))
    else if !s.readable then (r, Err(Refused))
    else if r.nextDocument >= MAX_ID || r.nextView >= MAX_ID then (r, Err(Capacity))
    else
      (Added(r, Document(key, 0, 0, 0, s.version, writable, true, 0, 0, None, None)), Ok(r.nextView + 1))
  }

  /** A new document with its first view. */
  function Added(r: Documents, d: Document): Documents {
    var id, view := r.nextDocument + 1, r.nextView + 1;
    Documents(r.documents[id := d], r.origins[d.key := id], r.views[view := id], id, view, r.nextOperation)
  }

  function TicketFor(r: Documents, id: DocId): ReadTicket
    requires id in r.documents
  {
    var d := r.documents[id];
    ReadTicket(id, d.sourceEpoch, d.accessEpoch, d.revision, d.version)
  }

  /** Compare a read with the document; only an unchanged document takes it. */
  function Observe(r: Documents, t: ReadTicket, s: Snapshot): (Documents, Result<bool>) {
    if t.document !in r.documents then (r, Err(Closed))
    else
      var d := r.documents[t.document];
      if !Fresh(d, t) then (r, Err(Stale))
      else if d.saving.Some? then (r, Err(Busy))
      else if !s.readable then (r, Err(Refused))
      else if d.version == s.version then
        if d.conflict.Some? then (With(r, t.document, d.(conflict := None, sourceEpoch := d.sourceEpoch + 1)), Ok(true))
        else (r, Ok(false))
      else if d.conflict.Some? && d.conflict.value.version == s.version then (r, Ok(false))
      else if Dirty(d) then
        (With(r, t.document, d.(conflict := Some(Change(s.version, false)), sourceEpoch := d.sourceEpoch + 1)),
         Ok(true))
      else
        (With(r, t.document,
              d.(revision := d.revision + 1, point := 0, savedPoint := 0, version := s.version,
                 sourceEpoch := d.sourceEpoch + 1)),
         Ok(true))
  }

  function SetAccess(r: Documents, id: DocId, available: bool, writable: bool): (Documents, Result<bool>) {
    if id !in r.documents then (r, Err(Closed))
    else
      var d := r.documents[id];
      if d.saving.Some? && available then (r, Err(Busy))
      else (With(r, id, d.(accessEpoch := d.accessEpoch + 1, available := available, writable := writable)), Ok(true))
  }

  /** `fits` tells whether the encoded text is within the size limit. */
  function PrepareSave(r: Documents, view: ViewId, fits: bool): (Documents, Result<SaveTicket>) {
    if view !in r.views || r.views[view] !in r.documents then (r, Err(Closed))
    else
      var id := r.views[view];
      var d := r.documents[id];
      if !d.available then (r, Err(Unavailable))
      else if !Writable(d) then (r, Err(ReadOnly))
      else if d.saving.Some? then (r, Err(Busy))
      else if d.conflict.Some? && !d.conflict.value.keptEdits then (r, Err(Conflict))
      else if !fits then (r, Err(Refused))
      else if r.nextOperation >= MAX_ID then (r, Err(Capacity))
      else
        var expected := if d.conflict.Some? then d.conflict.value.version else d.version;
        var t := SaveTicket(id, d.sourceEpoch, r.nextOperation + 1, d.point, expected);
        (With(r, id, d.(saving := Some(t.operation))).(nextOperation := t.operation), Ok(t))
  }

  predicate Holds(r: Documents, t: SaveTicket) {
    && t.document in r.documents
    && r.documents[t.document].sourceEpoch == t.sourceEpoch
    && r.documents[t.document].saving == Some(t.operation)
  }

  function FinishSave(r: Documents, t: SaveTicket, version: Version): (Documents, Result<bool>) {
    if t.document !in r.documents then (r, Err(Closed))
    else if !Holds(r, t) then (r, Err(Stale))
    else
      var d := r.documents[t.document];
      (With(r, t.document, d.(savedPoint := t.point, version := version, conflict := None, saving := None)), Ok(true))
  }

  function FailSave(r: Documents, t: SaveTicket): (Documents, Result<bool>) {
    if t.document !in r.documents then (r, Err(Closed))
    else if !Holds(r, t) then (r, Err(Stale))
    else (With(r, t.document, r.documents[t.document].(saving := None)), Ok(true))
  }

  predicate LastView(r: Documents, view: ViewId)
    requires view in r.views
  {
    forall v :: v in r.views && r.views[v] == r.views[view] ==> v == view
  }

  function Close(r: Documents, view: ViewId, discard: bool): (Documents, Result<CloseOutcome>) {
    if view !in r.views || r.views[view] !in r.documents then (r, Err(Closed))
    else
      var id := r.views[view];
      var d := r.documents[id];
      var last := LastView(r, view);
      if last && d.saving.Some? then (r, Err(Busy))
      else if last && Dirty(d) && !discard then (r, Ok(NeedsConfirmation))
      else if last then
        (r.(views := r.views - {view}, documents := r.documents - {id}, origins := r.origins - {d.key}),
         Ok(ViewClosed(Some(id))))
      else (r.(views := r.views - {view}), Ok(ViewClosed(None)))
  }

  /** Typing, undo, redo: a writable document moves to another place in its history. */
  function Edited(r: Documents, view: ViewId, point: nat): Documents {
    if view in r.views && r.views[view] in r.documents && Writable(r.documents[r.views[view]]) then
      var d := r.documents[r.views[view]];
      With(r, r.views[view], d.(revision := d.revision + 1, point := point))
    else r
  }

  function KeptEdits(r: Documents, view: ViewId): Documents {
    if view in r.views && r.views[view] in r.documents && Writable(r.documents[r.views[view]])
       && r.documents[r.views[view]].conflict.Some? then
      var d := r.documents[r.views[view]];
      With(r, r.views[view], d.(conflict := Some(d.conflict.value.(keptEdits := true))))
    else r
  }

  function Reloaded(r: Documents, view: ViewId): Documents {
    if view in r.views && r.views[view] in r.documents
       && r.documents[r.views[view]].saving.None? && r.documents[r.views[view]].available
       && r.documents[r.views[view]].conflict.Some? then
      var d := r.documents[r.views[view]];
      With(r, r.views[view],
           d.(revision := d.revision + 1, point := 0, savedPoint := 0, version := d.conflict.value.version,
              conflict := None, sourceEpoch := d.sourceEpoch + 1))
    else r
  }

  // ----- what the registry keeps -----

  ghost predicate ValidIds(r: Documents) {
    && r.documents.Keys == Targets(r.views)
    && (forall v :: v in r.views ==> v <= r.nextView)
    && (forall id :: id in r.documents ==> id <= r.nextDocument)
  }

  ghost predicate ValidOrigins(r: Documents) {
    && (forall id :: id in r.documents ==> r.documents[id].key in r.origins && r.origins[r.documents[id].key] == id)
    && (forall k :: k in r.origins ==> r.origins[k] in r.documents && r.documents[r.origins[k]].key == k)
  }

  /** Save tickets carry numbers that were handed out. */
  ghost predicate ValidSaves(r: Documents) {
    forall id :: id in r.documents && r.documents[id].saving.Some? ==> r.documents[id].saving.value <= r.nextOperation
  }

  ghost predicate Valid(r: Documents) {
    ValidIds(r) && ValidOrigins(r) && ValidSaves(r)
  }

  lemma {:induction false} WithKeepsValid(r: Documents, id: DocId, d: Document)
    requires Valid(r) && id in r.documents && d.key == r.documents[id].key
    requires d.saving == r.documents[id].saving || d.saving.None?
    ensures Valid(With(r, id, d))
  {
    var r' := With(r, id, d);
    assert ValidIds(r') by {
      assert r'.documents.Keys == r.documents.Keys;
    }
    assert ValidOrigins(r');
    assert ValidSaves(r');
  }

  lemma {:induction false} AddKeepsIds(r: Documents, d: Document)
    requires ValidIds(r)
    ensures ValidIds(Added(r, d))
  {
    var r' := Added(r, d);
    TargetsAdd(r.views, r'.nextView, r'.nextDocument);
    assert r'.documents.Keys == r.documents.Keys + {r'.nextDocument};
  }

  lemma {:induction false} AddKeepsOrigins(r: Documents, d: Document)
    requires r.nextDocument + 1 !in r.documents && ValidOrigins(r) && d.key !in r.origins
    ensures ValidOrigins(Added(r, d))
  {}

  lemma {:induction false} AddKeepsSaves(r: Documents, d: Document)
    requires ValidSaves(r) && d.saving.None?
    ensures ValidSaves(Added(r, d))
  {}

  lemma {:induction false} AddKeepsValid(r: Documents, d: Document)
    requires Valid(r) && d.key !in r.origins && d.saving.None?
    ensures Valid(Added(r, d))
  {
    AddKeepsIds(r, d);
    AddKeepsOrigins(r, d);
    AddKeepsSaves(r, d);
  }

  lemma {:induction false} OpenKeepsValid(r: Documents, key: Key, s: Snapshot, writable: bool)
    requires Valid(r)
    ensures Valid(Open(r, key, s, writable).0)
  {
    if key in r.origins {
      DuplicateKeepsValid(r, r.origins[key]);
    } else {
      AddKeepsValid(r, Document(key, 0, 0, 0, s.version, writable, true, 0, 0, None, None));
    }
  }

  lemma {:induction false} DuplicateKeepsValid(r: Documents, id: DocId)
    requires Valid(r) && id in r.documents
    ensures Valid(DuplicateDocument(r, id).0)
  {
    var (r', view) := DuplicateDocument(r, id);
    if view.Ok? {
      TargetsAdd(r.views, view.value, id);
    }
  }

  /** The next save number, given to a document. */
  ghost function HandedOut(r: Documents, id: DocId): Documents
    requires id in r.documents
  {
    var number := r.nextOperation + 1;
    With(r, id, r.documents[id].(saving := Some(number))).(nextOperation := number)
  }

  lemma {:induction false} HandingOutKeepsValid(r: Documents, id: DocId)
    requires Valid(r) && id in r.documents
    ensures Valid(HandedOut(r, id))
  {
    var r' := With(r, id, r.documents[id].(saving := Some(r.nextOperation + 1)));
    assert r'.documents.Keys == r.documents.Keys;
  }

  lemma {:induction false} PrepareKeepsValid(r: Documents, view: ViewId, fits: bool)
    requires Valid(r)
    ensures Valid(PrepareSave(r, view, fits).0)
  {
    var (r', t) := PrepareSave(r, view, fits);
    if t.Ok? {
      var id := r.views[view];
      HandingOutKeepsValid(r, id);
      assert r' == HandedOut(r, id);
    } else {
      assert r' == r;
    }
  }

  /** Failing a save that was just prepared leaves no trace but the spent number. */
  lemma {:induction false} FailUndoesPrepare(r: Documents, view: ViewId, fits: bool)
    requires PrepareSave(r, view, fits).1.Ok?
    ensures FailSave(PrepareSave(r, view, fits).0, PrepareSave(r, view, fits).1.value) ==
            (r.(nextOperation := r.nextOperation + 1), Ok(true))
  {
    var (r', t) := PrepareSave(r, view, fits);
    assert FailSave(r', t.value).0.documents == r.documents;
  }

  lemma {:induction false} CloseKeepsValid(r: Documents, view: ViewId, discard: bool)
    requires Valid(r)
    ensures Valid(Close(r, view, discard).0)
  {
    var (r', outcome) := Close(r, view, discard);
    if outcome.Ok? && outcome.value.ViewClosed? {
      TargetsRemove(r.views, view);
    }
  }

  /** Closing keeps a document with unsaved changes unless the caller discards them. */
  lemma {:induction false} CloseKeepsDirty(r: Documents, view: ViewId, discard: bool, id: DocId)
    requires Valid(r) && id in r.documents && id !in Close(r, view, discard).0.documents
    ensures view in r.views && r.views[view] == id && LastView(r, view)
    ensures r.documents[id].saving.None? && (Dirty(r.documents[id]) ==> discard)
  {}
}
