/**
 Reading over whole runs: a requested re-read is never lost, and write access comes only from a newly
 attached file or from a read that is still fresh.
 */
module HostReading {
  import opened Registry
  import opened HostSteps
  import opened HostFrames
  import opened HostInvariant
  import opened HostSaves

  // ----- the refresh queue -----

  /** The step serves the request: a read is in flight whose ticket describes the document as it is now. */
  predicate Served(h: Host, step: Step, h': Host, id: DocId) {
    && step.RefreshOne? && step.id == id
    && id in h.sources && h.sources[id].read.None? && id in h'.sources && id in h.registry.documents
    && h'.sources[id].read == Some(TicketFor(h.registry, id))
    && h'.registry == h.registry && Fresh(h.registry.documents[id], TicketFor(h.registry, id))
  }

  /** The document is closed, or was found unavailable while its re-read was tried. */
  predicate Dropped(h: Host, step: Step, h': Host, id: DocId) {
    || id !in h'.registry.documents
    || (step.RefreshOne? && step.id == id && !h'.registry.documents[id].available && id !in h'.sources)
  }

  lemma {:induction false} RefreshServes(h: Host, id: DocId, failure: Option<FileError>, other: DocId)
    requires other in h.refresh && other !in Refreshed(h, id, failure).refresh
    ensures Served(h, RefreshOne(id, failure), Refreshed(h, id, failure), other)
            || Dropped(h, RefreshOne(id, failure), Refreshed(h, id, failure), other)
  {}

  lemma {:induction false} CloseDrops(h: Host, view: ViewId, discard: bool, id: DocId)
    requires id in h.refresh && id !in ViewClosedBy(h, view, discard).refresh
    ensures id !in ViewClosedBy(h, view, discard).registry.documents
  {}

  lemma {:induction false} EventKeepsQueue(h: Host, id: DocId, event: Event)
    ensures h.refresh <= Evented(h, id, event).refresh
  {}

  lemma {:induction false} AttachKeepsQueue(h: Host, existing: map<DocId, ReadTicket>, s: FileSnapshot)
    ensures h.refresh <= Attached(h, existing, s).0.refresh
  {}

  lemma {:induction false} SavePressKeepsQueue(h: Host, fits: bool, failure: Option<FileError>)
    ensures SheetPressed(h, SavePressed(fits, failure)).refresh == h.refresh
  {
    if SaveEnabled(h) {
      SavePressOutcome(h, fits, failure);
    }
  }

  /** A request leaves the queue only when it is served, or with its document. */
  lemma {:induction false} RequestIsKept(h: Host, step: Step, id: DocId)
    requires id in h.refresh && id !in Apply(h, step).refresh
    ensures Served(h, step, Apply(h, step), id) || Dropped(h, step, Apply(h, step), id)
  {
    match step
    case RefreshOne(d, failure) => RefreshServes(h, d, failure, id);
    case OpenLoaded(s) =>
      if h.opening.Some? { AttachKeepsQueue(h.(opening := None), h.opening.value, s); }
    case SourceEvent(d, event) => EventKeepsQueue(h, d, event);
    case TakeRequest =>
      if h.closeRequested.Some? { CloseDrops(h.(closeRequested := None), h.closeRequested.value, false, id); }
    case CloseTab(tab) =>
      if ViewAt(h.views, tab).Some? { CloseDrops(h, ViewAt(h.views, tab).value, false, id); }
    case PressSheet(press) =>
      if press.SavePressed? {
        SavePressKeepsQueue(h, press.fits, press.failure);
      } else if press.DiscardPressed? && h.close.Some? {
        CloseDrops(h, h.close.value, true, id);
      }
    case _ => if Small(step) { SmallFrame(h, step); }
  }

  predicate Leaves(h: Host, step: Step, h': Host, id: DocId) {
    Served(h, step, h', id) || Dropped(h, step, h', id)
  }

  lemma {:induction false} RequestIsKeptAt(trace: seq<Host>, steps: seq<Step>, j: nat, id: DocId)
    requires Run(trace, steps) && j < |steps| && id in trace[j].refresh && id !in trace[j + 1].refresh
    ensures Leaves(trace[j], steps[j], trace[j + 1], id)
  {
    assert Linked(trace, steps, j);
    RequestIsKept(trace[j], steps[j], id);
  }

  /** Over every run: a re-read requested by step i is still queued at step k, or some step since then has put a
      read in flight under a ticket captured by that step, or dropped the document. */
  lemma {:induction false} RereadIsNeverLost(trace: seq<Host>, steps: seq<Step>, i: nat, k: nat, id: DocId)
    returns (j: nat)
    requires Run(trace, steps) && i <= k < |trace| && id in trace[i].refresh
    ensures id in trace[k].refresh || (i <= j < k && Leaves(trace[j], steps[j], trace[j + 1], id))
    decreases k
  {
    j := i;
    if i < k {
      j := RereadIsNeverLost(trace, steps, i, k - 1, id);
      if id in trace[k - 1].refresh && id !in trace[k].refresh {
        j := k - 1;
        RequestIsKeptAt(trace, steps, j, id);
      }
    }
  }

  /** A queued request whose source is idle is served by the next try that the native side accepts. */
  lemma {:induction false} IdleRequestIsServed(h: Host, id: DocId)
    requires Inv(h) && id in h.refresh && id in h.sources && h.sources[id].read.None? && h.sources[id].save.None?
    ensures Served(h, RefreshOne(id, None), Apply(h, RefreshOne(id, None)), id)
            && id !in Apply(h, RefreshOne(id, None)).refresh
  {}

  // ----- write access -----

  ghost predicate NoGrant(r: Documents, r': Documents) {
    forall id :: id in r.documents && id in r'.documents && Writable(r'.documents[id]) ==> Writable(r.documents[id])
  }

  /** A file the user just picked and authorized arrives writable. */
  predicate AttachGrants(h: Host, step: Step, id: DocId) {
    step.OpenLoaded? && step.snapshot.writable && h.opening.Some? && step.snapshot.key.Some?
    && step.snapshot.key.value in h.registry.origins && h.registry.origins[step.snapshot.key.value] == id
  }

  /** A read arrives writable, and nothing has changed since its ticket. */
  predicate FreshReadGrants(h: Host, step: Step, id: DocId) {
    step.SourceEvent? && step.id == id && step.event.Loaded? && step.event.snapshot.writable
    && id in h.sources && h.sources[id].read.Some? && id in h.registry.documents
    && Fresh(h.registry.documents[id], h.sources[id].read.value)
  }

  lemma {:induction false} ObserveGrantsNothing(r: Documents, t: ReadTicket, s: Snapshot)
    ensures NoGrant(r, Observe(r, t, s).0) && SameShape(r, Observe(r, t, s).0)
  {}

  lemma {:induction false} RevokingGrantsNothing(r: Documents, id: DocId, available: bool, writable: bool)
    requires !(available && writable)
    ensures NoGrant(r, SetAccess(r, id, available, writable).0)
  {}

  lemma {:induction false} ReadGrants(h: Host, id: DocId, t: ReadTicket, s: FileSnapshot, other: DocId)
    requires t.document == id && other in h.registry.documents && !Writable(h.registry.documents[other])
    requires other in ReadArrived(h, id, t, s).registry.documents
             && Writable(ReadArrived(h, id, t, s).registry.documents[other])
    ensures other == id && s.writable && Fresh(h.registry.documents[id], t)
  {
    var (r, observed) := Observe(h.registry, t, s.content);
    ObserveGrantsNothing(h.registry, t, s.content);
    if observed.Err? && id in h.registry.documents {
      RevokingGrantsNothing(h.registry, id, h.registry.documents[id].available, false);
    }
  }

  lemma {:induction false} BlameGrantsNothing(h: Host, id: DocId, failure: FileError)
    ensures NoGrant(h.registry, Blamed(h, id, failure).registry)
  {
    RevokingGrantsNothing(h.registry, id, false, false);
    RevokingGrantsNothing(h.registry, id, true, false);
  }

  lemma {:induction false} FailureGrantsNothing(h: Host, id: DocId, t: SaveTicket, failure: FileError)
    ensures NoGrant(h.registry, FailureSettled(h, id, t, failure).registry)
  {
    var r := FailSave(h.registry, t).0;
    FailShape(h.registry, t);
    assert NoGrant(h.registry, r);
    BlameFrame(h.(registry := r), id, failure);
    BlameGrantsNothing(h.(registry := r), id, failure);
  }

  lemma {:induction false} RefusalGrantsNothing(h: Host, id: DocId, number: nat, failure: FileError)
    ensures NoGrant(h.registry, SaveRefused(h, id, number, failure).registry)
  {
    var h0 := if h.saveClose.Some? && h.saveClose.value.1 == number then h.(saveClose := None) else h;
    var (taken, t) := SaveTaken(h0, id, number);
    if t.Some? {
      FailureGrantsNothing(taken, id, t.value, failure);
    }
  }

  lemma {:induction false} ReceiptGrantsNothing(h: Host, id: DocId, number: nat, version: Version)
    ensures NoGrant(h.registry, SaveArrived(h, id, number, version).registry)
  {}

  lemma {:induction false} SaveGrantsNothing(h: Host, view: ViewId, fits: bool, failure: Option<FileError>)
    ensures NoGrant(h.registry, SaveStarted(h, view, fits, failure).registry)
  {}

  lemma {:induction false} RefreshGrantsNothing(h: Host, id: DocId, failure: Option<FileError>)
    ensures NoGrant(h.registry, Refreshed(h, id, failure).registry)
  {
    RevokingGrantsNothing(h.registry, id, false, false);
  }

  lemma {:induction false} CloseGrantsNothing(h: Host, view: ViewId, discard: bool)
    ensures NoGrant(h.registry, ViewClosedBy(h, view, discard).registry)
  {}

  lemma {:induction false} PressGrantsNothing(h: Host, press: Press)
    ensures NoGrant(h.registry, SheetPressed(h, press).registry)
  {
    match press
    case SavePressed(fits, failure) =>
      if SaveEnabled(h) {
        SavePressOutcome(h, fits, failure);
        SaveGrantsNothing(h, h.close.value, fits, failure);
      }
    case DiscardPressed =>
      if h.close.Some? { CloseGrantsNothing(h, h.close.value, true); }
    case _ =>
  }

  lemma {:induction false} EditGrantsNothing(h: Host, step: Step)
    requires IsEdit(step) || step.Duplicate?
    ensures NoGrant(h.registry, Apply(h, step).registry)
  {}

  lemma {:induction false} JoinGrants(r: Documents, existing: map<DocId, ReadTicket>, key: Key, s: FileSnapshot,
                                      id: DocId)
    requires Valid(r) && id in r.documents && !Writable(r.documents[id])
    requires id in Joining(r, existing, key, s).0.documents && Writable(Joining(r, existing, key, s).0.documents[id])
    ensures key in r.origins && r.origins[key] == id && s.writable
  {
    var (r0, attempt) := Open(r, key, s.content, s.writable);
    assert id in r0.documents && r0.documents[id] == r.documents[id];
    if attempt.Ok? {
      var d := r0.views[attempt.value];
      if key in r.origins && d in existing {
        ObserveGrantsNothing(r0, existing[d], s.content);
      }
    }
  }

  lemma {:induction false} EventGrants(h: Host, id: DocId, event: Event, other: DocId)
    requires Inv(h) && other in h.registry.documents && !Writable(h.registry.documents[other])
    requires other in Evented(h, id, event).registry.documents
             && Writable(Evented(h, id, event).registry.documents[other])
    ensures FreshReadGrants(h, SourceEvent(id, event), other)
  {
    match event
    case Loaded(s) =>
      if id in h.sources && h.sources[id].read.Some? {
        assert GoodSource(h.registry, h.operation, id, h.sources[id]);
        ReadGrants(ReadTaken(h, id), id, h.sources[id].read.value, s, other);
      }
    case Saved(number, version) => ReceiptGrantsNothing(h, id, number, version);
    case SaveFailed(number, failure) => RefusalGrantsNothing(h, id, number, failure);
    case Gone => RevokingGrantsNothing(h.registry, id, false, false);
  }

  lemma {:induction false} OthersGrantNothing(h: Host, step: Step)
    requires !step.OpenLoaded? && !step.SourceEvent?
    ensures NoGrant(h.registry, Apply(h, step).registry)
  {
    match step
    case RefreshOne(d, failure) => RefreshGrantsNothing(h, d, failure);
    case Save(v, fits, failure) => SaveGrantsNothing(h, v, fits, failure);
    case TakeRequest =>
      if h.closeRequested.Some? { CloseGrantsNothing(h.(closeRequested := None), h.closeRequested.value, false); }
    case CloseTab(tab) =>
      if ViewAt(h.views, tab).Some? { CloseGrantsNothing(h, ViewAt(h.views, tab).value, false); }
    case PressSheet(press) => PressGrantsNothing(h, press);
    case _ => if Small(step) { SmallFrame(h, step); } else { EditGrantsNothing(h, step); }
  }

  lemma {:induction false} AttachIsAuthorized(h: Host, s: FileSnapshot, id: DocId)
    requires Valid(h.registry) && id in h.registry.documents && !Writable(h.registry.documents[id])
    requires id in OpeningLoaded(h, s).0.registry.documents && Writable(OpeningLoaded(h, s).0.registry.documents[id])
    ensures AttachGrants(h, OpenLoaded(s), id)
  {
    if s.key.Some? && OpeningLoaded(h, s).0.registry != h.registry {
      JoinGrants(h.registry, h.opening.value, s.key.value, s, id);
    }
  }

  /** Write access goes from false to true only through an authorized attach or a fresh read. */
  lemma {:induction false} AccessIsEarned(h: Host, step: Step, id: DocId)
    requires Inv(h) && id in h.registry.documents && !Writable(h.registry.documents[id])
    requires id in Apply(h, step).registry.documents && Writable(Apply(h, step).registry.documents[id])
    ensures AttachGrants(h, step, id) || FreshReadGrants(h, step, id)
  {
    if step.OpenLoaded? {
      AttachIsAuthorized(h, step.snapshot, id);
    } else if step.SourceEvent? {
      EventGrants(h, step.id, step.event, id);
    } else {
      OthersGrantNothing(h, step);
    }
  }

  /** Over every run: a document that is not writable at step i and writable at step k was granted access in between,
      by an authorized attach or a fresh read. */
  lemma {:induction false} WriteAccessIsEarned(trace: seq<Host>, steps: seq<Step>, i: nat, k: nat, id: DocId)
    returns (j: nat)
    requires Run(trace, steps) && i <= k < |trace|
    requires forall m :: i <= m <= k ==> id in trace[m].registry.documents
    requires !Writable(trace[i].registry.documents[id]) && Writable(trace[k].registry.documents[id])
    ensures i <= j < k && (AttachGrants(trace[j], steps[j], id) || FreshReadGrants(trace[j], steps[j], id))
    decreases k
  {
    if Writable(trace[k - 1].registry.documents[id]) {
      j := WriteAccessIsEarned(trace, steps, i, k - 1, id);
    } else {
      j := k - 1;
      AccessIsEarnedAt(trace, steps, j, id);
    }
  }

  lemma {:induction false} AccessIsEarnedAt(trace: seq<Host>, steps: seq<Step>, j: nat, id: DocId)
    requires Run(trace, steps) && j < |steps|
    requires id in trace[j].registry.documents && !Writable(trace[j].registry.documents[id])
    requires id in trace[j + 1].registry.documents && Writable(trace[j + 1].registry.documents[id])
    ensures AttachGrants(trace[j], steps[j], id) || FreshReadGrants(trace[j], steps[j], id)
  {
    RunKeepsInv(trace, steps, j);
    assert Linked(trace, steps, j);
    AccessIsEarned(trace[j], steps[j], id);
  }

  /** A stale read never grants access, revokes it exactly when it arrives read-only, leaves text and version
      alone, and always asks for another read. */
  lemma {:induction false} StaleReadOnlyRevokes(h: Host, id: DocId, s: FileSnapshot)
    requires Inv(h) && id in h.sources && h.sources[id].read.Some?
    requires id in h.registry.documents && !Fresh(h.registry.documents[id], h.sources[id].read.value)
    ensures var h' := Apply(h, SourceEvent(id, Loaded(s)));
            && id in h'.refresh && id in h'.sources && h'.sources[id].read.None?
            && h'.registry == OnlyRevoked(h.registry, id, s.writable)
  {
    assert GoodSource(h.registry, h.operation, id, h.sources[id]);
    StaleReadOutcome(ReadTaken(h, id), id, h.sources[id].read.value, s);
  }

  ghost function OnlyRevoked(r: Documents, id: DocId, writable: bool): Documents
    requires id in r.documents
  {
    var d := r.documents[id];
    if writable then r else With(r, id, d.(accessEpoch := d.accessEpoch + 1, writable := false))
  }

  lemma {:induction false} StaleReadOutcome(h: Host, id: DocId, t: ReadTicket, s: FileSnapshot)
    requires t.document == id && id in h.registry.documents && !Fresh(h.registry.documents[id], t)
    requires h.registry.documents[id].saving.None?
    ensures var h' := ReadArrived(h, id, t, s);
            id in h'.refresh && h'.sources == h.sources && h'.registry == OnlyRevoked(h.registry, id, s.writable)
  {}

  lemma {:induction false} FreshReadOutcome(h: Host, id: DocId, t: ReadTicket, s: FileSnapshot)
    requires t.document == id && id in h.registry.documents && Fresh(h.registry.documents[id], t)
    requires h.registry.documents[id].saving.None? && s.content.readable
    ensures var r := ReadArrived(h, id, t, s).registry;
            id in r.documents && r.documents[id].available && Writable(r.documents[id]) == s.writable
  {
    var (r, observed) := Observe(h.registry, t, s.content);
    assert observed.Ok? && id in r.documents && r.documents[id].saving.None?;
  }

  /** A fresh read leaves the document available with exactly the access it reports, if its text is acceptable. */
  lemma {:induction false} FreshReadSettlesAccess(h: Host, id: DocId, s: FileSnapshot)
    requires Inv(h) && id in h.sources && h.sources[id].read.Some? && id in h.registry.documents && s.content.readable
    requires Fresh(h.registry.documents[id], h.sources[id].read.value)
    ensures var h' := Apply(h, SourceEvent(id, Loaded(s)));
            id in h'.registry.documents && h'.registry.documents[id].available
                && Writable(h'.registry.documents[id]) == s.writable
  {
    assert GoodSource(h.registry, h.operation, id, h.sources[id]);
    FreshReadOutcome(ReadTaken(h, id), id, h.sources[id].read.value, s);
  }
}
