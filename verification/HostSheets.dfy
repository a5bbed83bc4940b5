/**
 What the close sheet leads to: a save started from it closes its view, and a request to close is honoured.
 */
module HostSheets {
  import opened Registry
  import opened HostSteps
  import opened HostFrames
  import opened HostInvariant
  import opened HostSaves
  import opened HostClosing
  import opened HostOrphans

  // ----- a save in flight stays in flight -----

  /** The events that end a save in flight: its receipt, its failure, or its file going away. */
  predicate EndsFlight(h: Host, step: Step, id: DocId) {
    step.SourceEvent? && step.id == id && InFlight(h, id).Some?
    && (step.event.Gone?
        || ((step.event.Saved? || step.event.SaveFailed?) && step.event.operation == InFlight(h, id).value.0))
  }

  lemma {:induction false} MarkedIsInFlight(h: Host, id: DocId)
    requires Inv(h) && id in h.sources && id in h.registry.documents && h.registry.documents[id].saving.Some?
    ensures InFlight(h, id).Some?
  {
    assert GoodSource(h.registry, h.operation, id, h.sources[id]);
  }

  lemma {:induction false} InFlightIsMarked(h: Host, id: DocId)
    requires Inv(h) && InFlight(h, id).Some?
    ensures id in h.sources && id in h.registry.documents && h.registry.documents[id].saving.Some?
  {
    assert GoodSource(h.registry, h.operation, id, h.sources[id]);
  }

  lemma {:induction false} EventKeepsFlight(h: Host, d: DocId, event: Event, id: DocId)
    requires Inv(h) && InFlight(h, id).Some? && !EndsFlight(h, SourceEvent(d, event), id)
    ensures var h' := Apply(h, SourceEvent(d, event));
            id in h'.sources && id in h'.registry.documents && h'.registry.documents[id].saving.Some?
  {
    InFlightIsMarked(h, id);
    if d != id {
      if d in h.registry.documents {
        OtherEventsKeep(h, d, event, id);
      }
    } else {
      match event
      case Loaded(s) => LoadKeeps(h, id, s, id);
      case Saved(number, version) => OtherReceiptsAreRefused(h, id, number, version, Io);
      case SaveFailed(number, failure) => OtherReceiptsAreRefused(h, id, number, 0, failure);
      case Gone =>
    }
  }

  lemma {:induction false} StepKeepsFlight(h: Host, step: Step, id: DocId)
    requires Inv(h) && InFlight(h, id).Some? && !step.SourceEvent?
    ensures var h' := Apply(h, step);
            id in h'.sources && id in h'.registry.documents && h'.registry.documents[id].saving.Some?
  {
    InFlightIsMarked(h, id);
    OthersLeaveNoOrphan(h, step, id);
  }

  /** Only its receipt, its failure or the loss of its file end a save in flight. */
  lemma {:induction false} FlightStays(h: Host, step: Step, id: DocId)
    requires Inv(h) && InFlight(h, id).Some? && !EndsFlight(h, step, id)
    ensures InFlight(Apply(h, step), id) == InFlight(h, id)
  {
    if step.SourceEvent? {
      EventKeepsFlight(h, step.id, step.event, id);
    } else {
      StepKeepsFlight(h, step, id);
    }
    StepKeepsInv(h, step);
    MarkedIsInFlight(Apply(h, step), id);
    var _ := StepStartsOne(h, step);
  }

  // ----- the receipt asks to close -----

  /** The receipt of the save that a close waits for asks to close the view, whichever view is active. */
  lemma {:induction false} ReceiptAsksToClose(h: Host, id: DocId, number: nat, version: Version, view: ViewId)
    requires Inv(h) && InFlight(h, id).Some? && InFlight(h, id).value.0 == number
    requires h.saveClose == Some((view, number)) && view in h.registry.views && h.registry.views[view] == id
    ensures var h' := Apply(h, SourceEvent(id, Saved(number, version)));
            && h'.closeRequested == Some(view) && h'.saveClose.None? && InFlight(h', id).None?
            && h'.registry.views == h.registry.views && h'.close == h.close
  {
    TakenReceiptHolds(h, id, number);
    ReceiptFrame(h, id, number, version);
  }

  lemma {:induction false} FlightStaysAt(trace: seq<Host>, steps: seq<Step>, k: nat, id: DocId)
    requires Run(trace, steps) && k < |steps| && InFlight(trace[k], id).Some? && !EndsFlight(trace[k], steps[k], id)
    ensures InFlight(trace[k + 1], id) == InFlight(trace[k], id)
  {
    RunKeepsInv(trace, steps, k);
    assert Linked(trace, steps, k);
    FlightStays(trace[k], steps[k], id);
  }

  lemma {:induction false} ReceiptAsksAt(trace: seq<Host>, steps: seq<Step>, k: nat, id: DocId, number: nat,
                                         view: ViewId)
    requires Run(trace, steps) && k < |steps|
    requires steps[k].SourceEvent? && steps[k].id == id && steps[k].event.Saved? && steps[k].event.operation == number
    requires InFlight(trace[k], id).Some? && InFlight(trace[k], id).value.0 == number
    requires trace[k].saveClose == Some((view, number))
    requires view in trace[k].registry.views && trace[k].registry.views[view] == id
    ensures trace[k + 1].closeRequested == Some(view) && trace[k + 1].saveClose.None?
    ensures trace[k + 1].registry.views == trace[k].registry.views
  {
    RunKeepsInv(trace, steps, k);
    assert Linked(trace, steps, k);
    ReceiptAsksToClose(trace[k], id, number, steps[k].event.version, view);
  }

  /** While a save-then-close is pending, and its file was not lost, its save is in flight. */
  lemma {:induction false} PendingIsInFlight(trace: seq<Host>, steps: seq<Step>, j: nat, k: nat, view: ViewId,
                                             number: nat)
    requires Run(trace, steps) && j < k < |trace| && PendingSince(trace, steps, j, k, view, number)
    requires forall m :: j < m < k ==> steps[m] != SourceEvent(trace[j].registry.views[view], Gone)
    ensures var id := trace[j].registry.views[view];
            InFlight(trace[k], id).Some? && InFlight(trace[k], id).value.0 == number
    decreases k
  {
    var id := trace[j].registry.views[view];
    if k > j + 1 {
      PendingIsInFlight(trace, steps, j, k - 1, view, number);
      if EndsFlight(trace[k - 1], steps[k - 1], id) {
        FlightEndsVisibly(trace, steps, j, k, view, number);
      } else {
        FlightStaysAt(trace, steps, k - 1, id);
      }
    }
  }

  /** Such a save cannot have ended unnoticed. */
  lemma {:induction false} FlightEndsVisibly(trace: seq<Host>, steps: seq<Step>, j: nat, k: nat, view: ViewId,
                                             number: nat)
    requires Run(trace, steps) && j + 1 < k < |trace| && PendingSince(trace, steps, j, k, view, number)
    requires var id := trace[j].registry.views[view];
             && InFlight(trace[k - 1], id).Some? && InFlight(trace[k - 1], id).value.0 == number
             && steps[k - 1] != SourceEvent(id, Gone)
    ensures !EndsFlight(trace[k - 1], steps[k - 1], trace[j].registry.views[view])
  {
    var id := trace[j].registry.views[view];
    RunKeepsInv(trace, steps, k - 1);
    InFlightIsMarked(trace[k - 1], id);
    assert !Abandons(trace[k - 1], steps[k - 1], trace[k], view, number);
    assert trace[k - 1].saveClose == Some((view, number)) && trace[k].saveClose == Some((view, number));
    if EndsFlight(trace[k - 1], steps[k - 1], id) && steps[k - 1].event.Saved? {
      ReceiptAsksAt(trace, steps, k - 1, id, number, view);
    }
  }

  /** Over every run: a save started from a view's close sheet asks to close that view when its receipt arrives, unless
      the user cancelled, the save failed, the view was closed or the file was lost in between. */
  lemma {:induction false} SaveThenCloseHappens(trace: seq<Host>, steps: seq<Step>, j: nat, k: nat, view: ViewId,
                                                number: nat)
    requires Run(trace, steps) && j < k < |steps| && PendingSince(trace, steps, j, k, view, number)
    requires forall m :: j < m < k ==> steps[m] != SourceEvent(trace[j].registry.views[view], Gone)
    requires steps[k].SourceEvent? && steps[k].id == trace[j].registry.views[view]
    requires steps[k].event.Saved? && steps[k].event.operation == number
    ensures trace[k + 1].closeRequested == Some(view) && trace[k + 1].saveClose.None?
    ensures view in trace[k + 1].registry.views
  {
    PendingIsInFlight(trace, steps, j, k, view, number);
    ReceiptAsksAt(trace, steps, k, trace[j].registry.views[view], number, view);
  }

  // ----- a request to close is honoured -----

  /** The views but one, in order. */
  lemma {:induction false} OthersStay(views: seq<View>, view: ViewId)
    ensures forall e :: e in WithoutView(views, view) <==> e in views && e.id != view
  {
    WithoutViewElements(views, view);
  }

  /** What closing a view does, case by case.  The last view of a document that is being saved stays; the last view of
      unsaved text opens its sheet, unless it is discarded; otherwise the view goes, with every handle to it and
      nothing else, and with the last view its document, source, queue entry and preview. */
  lemma {:induction false} CloseExactly(h: Host, view: ViewId, discard: bool)
    requires Inv(h) && view in h.registry.views
    ensures h.registry.views[view] in h.registry.documents
    ensures var id := h.registry.views[view];
            var d, last, h' := h.registry.documents[id], LastView(h.registry, view), ViewClosedBy(h, view, discard);
            if last && d.saving.Some? then h' == h
            else if last && Dirty(d) && !discard then h' == h.(close := Some(view))
            else
              && h'.registry.views == h.registry.views - {view}
              && (forall e :: e in h'.views <==> e in h.views && e.id != view)
              && Dismissed(h, h', view)
              && (if last then Dropped(h, h', id)
                  else h'.registry.documents == h.registry.documents && h'.sources == h.sources
                       && h'.refresh == h.refresh && h'.previews == h.previews)
  {
    ShownViewsHaveDocuments(h.registry, view);
    OthersStay(h.views, view);
  }

  /** Closing that nothing prevents. */
  lemma {:induction false} CloseGoesThrough(h: Host, view: ViewId, discard: bool)
    requires view in h.registry.views && h.registry.views[view] in h.registry.documents
    requires var d := h.registry.documents[h.registry.views[view]];
             LastView(h.registry, view) ==> d.saving.None? && (Dirty(d) ==> discard)
    ensures var h' := ViewClosedBy(h, view, discard);
            && h'.registry.views == h.registry.views - {view} && h'.close.None?
            && h'.views == WithoutView(h.views, view) && h'.closeRequested == h.closeRequested
            && (LastView(h.registry, view) ==> h.registry.views[view] !in h'.registry.documents)
  {}

  /** Closing the last view of unsaved text without discarding it. */
  lemma {:induction false} CloseAsks(h: Host, view: ViewId)
    requires view in h.registry.views && h.registry.views[view] in h.registry.documents && LastView(h.registry, view)
    ensures var d, h' := h.registry.documents[h.registry.views[view]], ViewClosedBy(h, view, false);
            && (d.saving.Some? ==> h' == h)
            && (d.saving.None? && Dirty(d) ==> h' == h.(close := Some(view)))
  {}

  /** No handle names the view; handles to others, and everything unrelated, stay. */
  predicate Dismissed(h: Host, h': Host, view: ViewId) {
    && h'.close.None?
    && h'.active == (if h.active == Some(view) then None else h.active)
    && h'.compare == (if h.compare == Some(view) then None else h.compare)
    && h'.contents == (if h.contents == Some(view) then None else h.contents)
    && (if h.saveClose.Some? && h.saveClose.value.0 == view then h'.saveClose.None? else h'.saveClose == h.saveClose)
    && h'.opening == h.opening && h'.operation == h.operation && h'.nextTab == h.nextTab
    && h'.closeRequested == h.closeRequested
  }

  predicate Dropped(h: Host, h': Host, id: DocId) {
    && h'.registry.documents == h.registry.documents - {id} && h'.sources == h.sources - {id}
    && h'.refresh == h.refresh - {id} && h'.previews == h.previews - {id}
  }

  /** A requested close happens at the next frame: the view goes if its document is clean or has other views, and
      otherwise its sheet opens; the request is used up. */
  lemma {:induction false} RequestIsHonoured(h: Host, view: ViewId)
    requires Inv(h) && h.closeRequested == Some(view) && view in h.registry.views
    ensures h.registry.views[view] in h.registry.documents
    ensures var d, last := h.registry.documents[h.registry.views[view]], LastView(h.registry, view);
            var h' := Apply(h, TakeRequest);
            && h'.closeRequested.None?
            && (d.saving.None? && (!last || !Dirty(d)) ==> view !in h'.registry.views)
            && (d.saving.None? && last && Dirty(d) ==> h'.close == Some(view) && view in h'.registry.views)
  {
    ShownViewsHaveDocuments(h.registry, view);
    RequestOutcome(h.(closeRequested := None), view);
  }

  lemma {:induction false} RequestOutcome(h: Host, view: ViewId)
    requires Inv(h) && view in h.registry.views && h.registry.views[view] in h.registry.documents
    requires h.closeRequested.None?
    ensures var d, last := h.registry.documents[h.registry.views[view]], LastView(h.registry, view);
            var h' := ViewClosedBy(h, view, false);
            && h'.closeRequested.None?
            && (d.saving.None? && (!last || !Dirty(d)) ==> view !in h'.registry.views)
            && (d.saving.None? && last && Dirty(d) ==> h'.close == Some(view) && view in h'.registry.views)
  {
    if LastView(h.registry, view) && (h.registry.documents[h.registry.views[view]].saving.Some?
                                      || Dirty(h.registry.documents[h.registry.views[view]])) {
      CloseAsks(h, view);
    } else {
      CloseGoesThrough(h, view, false);
    }
  }

  /** Discarding in the sheet closes the view, unsaved text or not. */
  lemma {:induction false} DiscardCloses(h: Host)
    requires Inv(h) && h.close.Some? && !Saving(h, h.close.value)
    ensures var h', view := SheetPressed(h, DiscardPressed), h.close.value;
            && h'.registry.views == h.registry.views - {view} && h'.close.None?
            && (LastView(h.registry, view) ==> h.registry.views[view] !in h'.registry.documents)
  {
    ShownViewsHaveDocuments(h.registry, h.close.value);
    CloseGoesThrough(h, h.close.value, true);
    DiscardIsClose(h);
  }

  lemma {:induction false} DiscardIsClose(h: Host)
    requires h.close.Some? && h.close.value in h.registry.views
    requires h.registry.views[h.close.value] in h.registry.documents && !Saving(h, h.close.value)
    ensures SheetPressed(h, DiscardPressed) == ViewClosedBy(h, h.close.value, true)
  {}

  /** Closing a tab closes its view, or opens its sheet if that would lose unsaved text. */
  lemma {:induction false} TabCloses(h: Host, e: View)
    requires Inv(h) && e in h.views
    ensures e.id in h.registry.views && h.registry.views[e.id] in h.registry.documents
    ensures var d, last := h.registry.documents[h.registry.views[e.id]], LastView(h.registry, e.id);
            var h' := Apply(h, CloseTab(e.tab));
            if last && d.saving.Some? then h' == h
            else if last && Dirty(d) then h' == h.(close := Some(e.id))
            else e.id !in h'.registry.views && e !in h'.views
  {
    TabNamesOne(h.views, e);
    assert e.id in Ids(h.views);
    ShownViewsHaveDocuments(h.registry, e.id);
    TabIsClose(h, e);
    TabOutcome(h, e);
  }

  lemma {:induction false} TabIsClose(h: Host, e: View)
    requires ViewAt(h.views, e.tab) == Some(e.id)
    ensures Apply(h, CloseTab(e.tab)) == ViewClosedBy(h, e.id, false)
  {}

  lemma {:induction false} TabOutcome(h: Host, e: View)
    requires e.id in h.registry.views && h.registry.views[e.id] in h.registry.documents
    ensures var d, last := h.registry.documents[h.registry.views[e.id]], LastView(h.registry, e.id);
            var h' := ViewClosedBy(h, e.id, false);
            if last && d.saving.Some? then h' == h
            else if last && Dirty(d) then h' == h.(close := Some(e.id))
            else e.id !in h'.registry.views && e !in h'.views
  {
    var d := h.registry.documents[h.registry.views[e.id]];
    if LastView(h.registry, e.id) && (d.saving.Some? || Dirty(d)) {
      CloseAsks(h, e.id);
    } else {
      CloseGoesThrough(h, e.id, false);
      WithoutViewElements(h.views, e.id);
    }
  }

  lemma {:induction false} TabNamesOne(views: seq<View>, e: View)
    requires Distinct(views) && e in views
    ensures ViewAt(views, e.tab) == Some(e.id)
  {
    ViewAtIsListed(views, e.tab);
    var i :| 0 <= i < |views| && views[i] == e;
    var j :| 0 <= j < |views| && views[j] == View(e.tab, ViewAt(views, e.tab).value);
  }

  /** Over every run: the frame after the receipt closes the view, or, if the user typed on meanwhile and no other view
      shows the document, asks again. */
  lemma {:induction false} SavedSheetCloses(trace: seq<Host>, steps: seq<Step>, j: nat, k: nat, view: ViewId,
                                            number: nat)
    requires Run(trace, steps) && j < k && k + 1 < |steps| && PendingSince(trace, steps, j, k, view, number)
    requires forall m :: j < m < k ==> steps[m] != SourceEvent(trace[j].registry.views[view], Gone)
    requires steps[k].SourceEvent? && steps[k].id == trace[j].registry.views[view]
    requires steps[k].event.Saved? && steps[k].event.operation == number && steps[k + 1].TakeRequest?
    ensures var h, h' := trace[k + 1], trace[k + 2];
            && view in h.registry.views && h.registry.views[view] in h.registry.documents
            && var d := h.registry.documents[h.registry.views[view]];
               if LastView(h.registry, view) && Dirty(d) then h'.close == Some(view) && view in h'.registry.views
               else view !in h'.registry.views
  {
    SaveThenCloseHappens(trace, steps, j, k, view, number);
    PendingIsInFlight(trace, steps, j, k, view, number);
    SettledAt(trace, steps, k, trace[j].registry.views[view], number);
    ReceiptAsksAt(trace, steps, k, trace[j].registry.views[view], number, view);
    HonouredAt(trace, steps, k + 1, view);
  }

  lemma {:induction false} SettledAt(trace: seq<Host>, steps: seq<Step>, k: nat, id: DocId, number: nat)
    requires Run(trace, steps) && k < |steps| && InFlight(trace[k], id).Some?
             && InFlight(trace[k], id).value.0 == number
    requires steps[k].SourceEvent? && steps[k].id == id && steps[k].event.Saved? && steps[k].event.operation == number
    ensures id in trace[k + 1].registry.documents && trace[k + 1].registry.documents[id].saving.None?
  {
    RunKeepsInv(trace, steps, k);
    assert Linked(trace, steps, k);
    MatchingReceiptIsAccepted(trace[k], id, number, InFlight(trace[k], id).value.1, steps[k].event.version);
  }

  lemma {:induction false} HonouredAt(trace: seq<Host>, steps: seq<Step>, k: nat, view: ViewId)
    requires Run(trace, steps) && k < |steps| && steps[k].TakeRequest?
    requires trace[k].closeRequested == Some(view) && view in trace[k].registry.views
    ensures trace[k].registry.views[view] in trace[k].registry.documents
    ensures var d := trace[k].registry.documents[trace[k].registry.views[view]];
            d.saving.None? ==>
              if LastView(trace[k].registry, view) && Dirty(d) then
                trace[k + 1].close == Some(view) && view in trace[k + 1].registry.views
              else view !in trace[k + 1].registry.views
  {
    RunKeepsInv(trace, steps, k);
    assert Linked(trace, steps, k);
    RequestIsHonoured(trace[k], view);
  }
}
