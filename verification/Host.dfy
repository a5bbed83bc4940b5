/**
 The document host object: the code of `DocumentHost`, operation by operation, each proved
 to do exactly what `HostSteps` says.
 */
module DocumentHosts {
  import opened Registry
  import opened HostSteps
  import opened HostFrames
  import opened HostInvariant
  import opened HostPolls

  class DocumentHost {
    var registry: Documents
    var views: seq<View>
    var active: Option<ViewId>
    var opening: Option<map<DocId, ReadTicket>>
    var sources: map<DocId, Source>
    var refresh: set<DocId>
    var operation: nat
    var close: Option<ViewId>
    var saveClose: Option<(ViewId, nat)>
    var closeRequested: Option<ViewId>
    var compare: Option<ViewId>
    var contents: Option<ViewId>
    var previews: set<DocId>
    var nextTab: nat

    ghost function State(): Host
      reads this
    {
      Host(registry, views, active, opening, sources, refresh, operation, close, saveClose, closeRequested,
           compare, contents, previews, nextTab)
    }

    constructor (nextTab: nat)
      ensures State() == HostSteps.Started(nextTab)
    {
      registry, views, active, opening, sources, refresh, operation := EMPTY, [], None, None, map[], {}, 0;
      close, saveClose, closeRequested, compare, contents, previews := None, None, None, None, None, {};
      this.nextTab := nextTab;
    }

    method InvalidateSources()
      modifies this`registry, this`refresh
      ensures State() == Invalidated(old(State()))
    {
      var ids := Listed(sources.Keys);
      RevokeAll(ids);
    }

    method RevokeAll(ids: seq<DocId>)
      requires NoRepeats(ids)
      modifies this`registry, this`refresh
      ensures registry == Revoked(old(registry), Elements(ids))
      ensures refresh == old(refresh) + Elements(ids)
    {
      RevokedNothing(registry);
      for at := 0 to |ids|
        invariant refresh == old(refresh) + Elements(ids[..at])
        invariant registry == Revoked(old(registry), Elements(ids[..at]))
      {
        ElementsGrow(ids, at);
        Revoke(ids[at], old(registry), Elements(ids[..at]));
        refresh := refresh + {ids[at]};
      }
      assert ids[..|ids|] == ids;
    }

    method Revoke(id: DocId, ghost start: Documents, ghost done: set<DocId>)
      requires id !in done && registry == Revoked(start, done)
      modifies this`registry
      ensures registry == Revoked(start, done + {id})
    {
      RevokedOneMore(start, done, id);
      registry := SetAccess(registry, id, false, false).0;
    }

    method Unavailable(id: DocId)
      modifies this
      ensures State() == MadeUnavailable(old(State()), id)
    {
      registry := SetAccess(registry, id, false, false).0;
      sources := sources - {id};
    }

    method StartRefresh(id: DocId, failure: Option<FileError>) returns (error: Option<FileError>)
      modifies this
      ensures (State(), error) == RefreshStarted(old(State()), id, failure)
    {
      if id !in Targets(registry.views) || id !in registry.documents {
        return Some(FileUnavailable);
      }
      var ticket := TicketFor(registry, id);
      if id !in sources {
        return Some(FileUnavailable);
      }
      var source := sources[id];
      if source.read.Some? || source.save.Some? {
        return Some(FileBusy);
      }
      if failure.Some? {
        return failure;
      }
      sources := sources[id := source.(read := Some(ticket))];
      return None;
    }

    /** One round of the refresh loop in `poll`. */
    method RefreshNext(id: DocId, failure: Option<FileError>)
      modifies this
      ensures State() == Refreshed(old(State()), id, failure)
    {
      var error := StartRefresh(id, failure);
      if error.None? {
        refresh := refresh - {id};
      } else if !error.value.FileBusy? {
        refresh := refresh - {id};
        Unavailable(id);
      }
    }

    method TakeSave(id: DocId, number: nat) returns (ticket: Option<SaveTicket>)
      modifies this
      ensures (State(), ticket) == SaveTaken(old(State()), id, number)
    {
      if id !in sources {
        return None;
      }
      var source := sources[id];
      if source.save.None? || source.save.value.0 != number {
        return None;
      }
      sources := sources[id := source.(save := None)];
      return Some(source.save.value.1);
    }

    method OnLoaded(id: DocId, s: FileSnapshot)
      modifies this
      ensures State() == Evented(old(State()), id, Loaded(s))
    {
      var ticket := None;
      if id in sources {
        ticket := sources[id].read;
        if ticket.Some? {
          sources := sources[id := sources[id].(read := None)];
        }
      }
      if ticket.None? {
        refresh := refresh + {id};
        return;
      }
      var (after, observed) := Observe(registry, ticket.value, s.content);
      if observed.Err? {
        if observed.error.Stale? {
          refresh := refresh + {id};
          if !s.writable && id in registry.documents {
            registry := SetAccess(registry, id, registry.documents[id].available, false).0;
          }
        }
        return;
      }
      registry := after;
      if id in registry.documents
         && (!registry.documents[id].available || Writable(registry.documents[id]) != s.writable) {
        registry := SetAccess(registry, id, true, s.writable).0;
      }
    }

    method OnSaved(id: DocId, number: nat, version: Version)
      modifies this
      ensures State() == Evented(old(State()), id, Saved(number, version))
    {
      var ticket := TakeSave(id, number);
      if ticket.None? {
        return;
      }
      var (after, finished) := FinishSave(registry, ticket.value, version);
      if finished.Err? {
        return;
      }
      registry := after;
      if saveClose.Some? {
        var (view, pending) := saveClose.value;
        if pending == number && view in registry.views && registry.views[view] == id {
          saveClose := None;
          closeRequested := Some(view);
        }
      }
    }

    method OnSaveFailed(id: DocId, number: nat, failure: FileError)
      modifies this
      ensures State() == Evented(old(State()), id, SaveFailed(number, failure))
    {
      if saveClose.Some? && saveClose.value.1 == number {
        saveClose := None;
      }
      var ticket := TakeSave(id, number);
      if ticket.None? {
        return;
      }
      SettleFailure(id, ticket.value, failure);
    }

    method SettleFailure(id: DocId, ticket: SaveTicket, failure: FileError)
      modifies this
      ensures State() == FailureSettled(old(State()), id, ticket, failure)
    {
      var (after, failed) := FailSave(registry, ticket);
      if failed.Err? {
        return;
      }
      registry := after;
      Blame(id, failure);
    }

    method Blame(id: DocId, failure: FileError)
      modifies this
      ensures State() == Blamed(old(State()), id, failure)
    {
      match failure {
        case Changed => refresh := refresh + {id};
        case FileUnavailable => Unavailable(id);
        case FileReadOnly => registry := SetAccess(registry, id, true, false).0;
        case _ =>
      }
    }

    method OnEvent(id: DocId, event: Event)
      modifies this
      ensures State() == Evented(old(State()), id, event)
    {
      match event {
        case Loaded(s) => OnLoaded(id, s);
        case Saved(number, version) => OnSaved(id, number, version);
        case SaveFailed(number, failure) => OnSaveFailed(id, number, failure);
        case Gone =>
          if id in sources {
            sources := sources[id := sources[id].(read := None)];
          }
          Unavailable(id);
      }
    }

    method SaveView(view: ViewId, fits: bool, failure: Option<FileError>)
      modifies this
      ensures State() == SaveStarted(old(State()), view, fits, failure)
    {
      if view !in registry.views {
        return;
      }
      var id := registry.views[view];
      if id !in sources {
        return;
      }
      var source := sources[id];
      if source.read.Some? || source.save.Some? || operation >= MAX_ID {
        return;
      }
      var number := operation + 1;
      var (prepared, ticket) := PrepareSave(registry, view, fits);
      if ticket.Err? {
        return;
      }
      registry := prepared;
      if failure.Some? {
        registry := FailSave(registry, ticket.value).0;
        return;
      }
      operation := number;
      sources := sources[id := source.(save := Some((number, ticket.value)))];
    }

    method Join(existing: map<DocId, ReadTicket>, key: Key, s: FileSnapshot) returns (joined: Option<Joined>)
      modifies this`registry
      ensures (registry, joined) == Joining(old(registry), existing, key, s)
    {
      var known := key in registry.origins;
      var (after, attempt) := Open(registry, key, s.content, s.writable);
      if attempt.Err? || attempt.value !in after.views {
        return None;
      }
      var view := attempt.value;
      registry := after;
      var id := registry.views[view];
      var observed := Ok(false);
      if known {
        if id in existing {
          var (seen, result) := Observe(registry, existing[id], s.content);
          registry := seen;
          observed := result;
        } else {
          observed := Err(Stale);
        }
      }
      var (granted, outcome) := SetAccess(registry, id, true, s.writable);
      registry := granted;
      return if outcome.Err? then None else Some(Joined(view, id, observed == Err(Stale)));
    }

    method Attach(existing: map<DocId, ReadTicket>, s: FileSnapshot) returns (attached: bool)
      modifies this`registry, this`sources, this`views, this`nextTab, this`active, this`refresh
      ensures (State(), attached) == Attached(old(State()), existing, s)
    {
      if s.key.None? {
        return false;
      }
      var key := s.key.value;
      if key in registry.origins && registry.origins[key] in registry.documents
         && registry.documents[registry.origins[key]].saving.Some? {
        return false;
      }
      if nextTab >= MAX_ID {
        return false;
      }
      var attempt := Join(existing, key, s);
      if attempt.None? {
        return false;
      }
      Show(attempt.value);
      return true;
    }

    method Show(joined: Joined)
      modifies this`sources, this`views, this`nextTab, this`active, this`refresh
      ensures State() == Shown(old(State()), joined)
    {
      sources := sources[joined.id := Source(None, None)];
      views := views + [View(nextTab, joined.view)];
      nextTab := nextTab + 1;
      active := Some(joined.view);
      if joined.stale {
        refresh := refresh + {joined.id};
      }
    }

    method RetainOtherViews(view: ViewId)
      modifies this`views
      ensures views == WithoutView(old(views), view)
    {
      var kept: seq<View> := [];
      for at := 0 to |views|
        invariant views == old(views)
        invariant kept + WithoutView(views[at..], view) == WithoutView(views, view)
      {
        assert views[at..][1..] == views[at + 1..];
        if views[at].id != view {
          assert kept + ([views[at]] + WithoutView(views[at + 1..], view)) ==
              (kept + [views[at]]) + WithoutView(views[at + 1..], view);
          kept := kept + [views[at]];
        }
      }
      assert kept + [] == kept;
      views := kept;
    }

    method Forget(view: ViewId)
      modifies this`saveClose, this`views, this`active, this`close, this`compare, this`contents
      ensures State() == Forgotten(old(State()), view)
    {
      saveClose := if saveClose.Some? && saveClose.value.0 == view then None else saveClose;
      RetainOtherViews(view);
      Unhandle(view);
    }

    method Unhandle(view: ViewId)
      modifies this`active, this`close, this`compare, this`contents
      ensures State() == Unhandled(old(State()), view)
    {
      active := Without(active, view);
      close := None;
      compare := Without(compare, view);
      contents := Without(contents, view);
    }

    method Release(id: DocId)
      modifies this`sources, this`refresh, this`previews
      ensures State() == Released(old(State()), id)
    {
      sources := sources - {id};
      refresh := refresh - {id};
      previews := previews - {id};
    }

    method CloseView(view: ViewId, discard: bool)
      modifies this
      ensures State() == ViewClosedBy(old(State()), view, discard)
    {
      var (after, outcome) := Close(registry, view, discard);
      match outcome {
        case Err(_) =>
        case Ok(NeedsConfirmation) => close := Some(view);
        case Ok(ViewClosed(released)) =>
          registry := after;
          Forget(view);
          if released.Some? {
            Release(released.value);
          }
      }
    }

    method DuplicateView(view: ViewId)
      modifies this
      ensures State() == Duplicated(old(State()), view)
    {
      if nextTab >= MAX_ID || view !in registry.views {
        return;
      }
      var (after, copy) := DuplicateDocument(registry, registry.views[view]);
      if copy.Err? {
        return;
      }
      registry := after;
      views := views + [View(nextTab, copy.value)];
      nextTab := nextTab + 1;
      active := Some(copy.value);
    }

    method ShowSheets(visible: bool, press: Press)
      modifies this
      ensures var h := if visible then old(State()) else old(State()).(contents := None);
              State() == SheetPressed(RequestTaken(h), press)
    {
      if !visible {
        contents := None;
      }
      TakeRequest();
      PressSheet(press);
    }

    method TakeRequest()
      modifies this
      ensures State() == RequestTaken(old(State()))
    {
      if closeRequested.Some? {
        var requested := closeRequested.value;
        closeRequested := None;
        CloseView(requested, false);
      }
    }

    method PressSheet(press: Press)
      modifies this
      ensures State() == SheetPressed(old(State()), press)
    {
      if close.None? {
        return;
      }
      var view := close.value;
      if view !in registry.views || registry.views[view] !in registry.documents {
        close := None;
        return;
      }
      var saving := registry.documents[registry.views[view]].saving.Some?;
      match press {
        case SavePressed(fits, failure) =>
          if !saving {
            SaveView(view, fits, failure);
            if view in registry.views && registry.views[view] in registry.documents
               && registry.documents[registry.views[view]].saving.Some? {
              saveClose := Some((view, operation));
            }
          }
        case DiscardPressed =>
          if !saving {
            CloseView(view, true);
          }
        case CancelPressed =>
          close := None;
          saveClose := None;
        case Nothing =>
      }
    }

    // ----- tabs -----

    method FindTab(tab: nat) returns (view: Option<ViewId>)
      ensures view == ViewAt(views, tab)
    {
      for at := 0 to |views|
        invariant ViewAt(views[at..], tab) == ViewAt(views, tab)
      {
        assert views[at..][1..] == views[at + 1..];
        if views[at].tab == tab {
          return Some(views[at].id);
        }
      }
      return None;
    }

    method ActivateTab(tab: nat) returns (found: bool)
      modifies this`active, this`contents
      ensures State() == Activated(old(State()), tab)
      ensures found <==> exists e :: e in views && e.tab == tab
    {
      ViewAtIsListed(views, tab);
      var view := FindTab(tab);
      if view.Some? {
        if active != view {
          contents := None;
        }
        active := view;
      }
      return view.Some?;
    }

    method CloseTab(tab: nat)
      modifies this
      ensures State() == TabClosed(old(State()), tab)
    {
      var view := FindTab(tab);
      if view.Some? {
        CloseView(view.value, false);
      }
    }

    method RequestClose(tab: nat)
      modifies this`closeRequested
      ensures State() == Apply(old(State()), Step.RequestClose(tab))
    {
      closeRequested := FindTab(tab);
    }

    method RefreshActive()
      modifies this`refresh
      ensures State() == ActiveRefreshRequested(old(State()))
    {
      if active.Some? && active.value in registry.views {
        refresh := refresh + {registry.views[active.value]};
      }
    }

    // ----- polling -----

    method PollPicker(failure: Option<FileError>)
      modifies this`opening
      ensures State() == Picked(old(State()), failure)
    {
      if opening.None? && failure.None? {
        var open := registry.documents.Keys * Targets(registry.views);
        opening := Some(map id | id in open :: TicketFor(registry, id));
      }
    }

    /** The file being opened delivered its text, or became unavailable. */
    method PollOpening(arrived: Option<FileSnapshot>) returns (attached: bool)
      modifies this
      ensures arrived.Some? ==> (State(), attached) == OpeningLoaded(old(State()), arrived.value)
      ensures arrived.None? ==> (State(), attached) == (old(State()).(opening := None), false)
    {
      attached := false;
      if opening.Some? {
        var existing := opening.value;
        opening := None;
        if arrived.Some? {
          attached := Attach(existing, arrived.value);
        }
      }
    }

    /** The picker, the file being opened and the writer epoch. */
    method PollOutside(picked: Option<Option<FileError>>, arrived: Option<Option<FileSnapshot>>, epochChanged: bool)
      returns (attached: bool)
      modifies this
      ensures State() == Outside(old(State()), picked, arrived, epochChanged)
      ensures attached == Attaches(old(State()), picked, arrived)
    {
      attached := false;
      if picked.Some? {
        PollPicker(picked.value);
      }
      if arrived.Some? {
        attached := PollOpening(arrived.value);
      }
      if epochChanged {
        refresh := refresh + sources.Keys;
      }
    }

    /** Everything the sources have queued: source by source, in the order of each queue. */
    method TakeEvents(queued: map<DocId, seq<Event>>) returns (ids: seq<DocId>, events: seq<(DocId, Event)>)
      ensures Elements(ids) == sources.Keys && NoRepeats(ids)
      ensures events == Gathered(ids, queued)
    {
      events := [];
      ids := Listed(sources.Keys);
      for at := 0 to |ids|
        invariant events == Gathered(ids[..at], queued)
      {
        assert ids[..at + 1][..at] == ids[..at];
        events := events + Tagged(ids[at], queued);
      }
      assert ids[..|ids|] == ids;
    }

    method PollEvents(events: seq<(DocId, Event)>)
      modifies this
      ensures State() == EventedAll(old(State()), events)
    {
      for at := 0 to |events|
        invariant State() == EventedAll(old(State()), events[..at])
      {
        assert events[..at + 1][..at] == events[..at];
        OnEvent(events[at].0, events[at].1);
      }
      assert events[..|events|] == events;
    }

    /** Every queued refresh is tried once. */
    method PollRefresh(failures: map<DocId, FileError>) returns (ids: seq<DocId>)
      modifies this
      ensures Elements(ids) == old(refresh) && NoRepeats(ids)
      ensures State() == RefreshedAll(old(State()), ids, failures)
    {
      ids := Listed(refresh);
      for at := 0 to |ids|
        invariant State() == RefreshedAll(old(State()), ids[..at], failures)
      {
        assert ids[..at + 1][..at] == ids[..at];
        RefreshNext(ids[at], Outcome(failures, ids[at]));
      }
      assert ids[..|ids|] == ids;
    }

    /** One poll: the picker, the file being opened, the writer epoch, all source events, then one try of every
        queued refresh.  `sourceIds` and `ids` are the orders in which the maps happen to be walked. */
    method Poll(picked: Option<Option<FileError>>, arrived: Option<Option<FileSnapshot>>, epochChanged: bool,
                queued: map<DocId, seq<Event>>, failures: map<DocId, FileError>)
      returns (attached: bool, sourceIds: seq<DocId>, ids: seq<DocId>)
      requires Inv(State())
      modifies this
      ensures attached == Attaches(old(State()), picked, arrived)
      ensures PollOrders(old(State()), picked, arrived, epochChanged, sourceIds, queued, ids)
      ensures State() == Polled(old(State()), picked, arrived, epochChanged, sourceIds, queued, ids, failures)
      ensures Inv(State())
    {
      ghost var start := State();
      attached := PollOutside(picked, arrived, epochChanged);
      var events;
      sourceIds, events := TakeEvents(queued);
      PollEvents(events);
      ids := PollRefresh(failures);
      PolledKeepsInv(start, picked, arrived, epochChanged, sourceIds, queued, ids, failures);
    }
  }

  /** The members of a set, in some order. */
  method Listed(ids: set<DocId>) returns (list: seq<DocId>)
    ensures NoRepeats(list)
    ensures Elements(list) == ids
  {
    list := [];
    var todo := ids;
    while todo != {}
      invariant NoRepeats(list)
      invariant forall id :: id in ids <==> id in list || id in todo
      invariant forall id :: id in list ==> id !in todo
      decreases |todo|
    {
      var id :| id in todo;
      list, todo := list + [id], todo - {id};
    }
  }

  lemma {:induction false} RevokedNothing(r: Documents)
    ensures Revoked(r, {}) == r
  {
    assert Revoked(r, {}).documents == r.documents;
  }

  lemma {:induction false} RevokedOneMore(r: Documents, done: set<DocId>, id: DocId)
    requires id !in done
    ensures Revoked(r, done + {id}) == SetAccess(Revoked(r, done), id, false, false).0
  {
    assert Revoked(r, done + {id}).documents == SetAccess(Revoked(r, done), id, false, false).0.documents;
  }
}
