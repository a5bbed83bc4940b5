/**
 The host together with the native file adapters.  An adapter runs one job at a time and hands out what it has to
 report when the host polls it; UIKit may also re-read a file on its own at any time.  Taken together the two never
 report a file as gone while its save waits for the receipt, so every save that starts has its receipt on the way.
 */
module HostFiles {
  import opened Registry
  import opened HostSteps
  import opened HostInvariant
  import opened HostSaves
  import opened HostOrphans
  import opened HostPolls

  datatype Job = Reading | Saving(operation: nat)

  /** An adapter's state.  On iOS reports wait in three slots and nothing is handed out while a job works; on Android
      each job appends one event, then clears `busy`. */
  datatype File =
    | Ios(job: Option<Job>, completed: Option<Event>, loaded: Option<FileSnapshot>, unavailable: bool)
    | Android(busy: bool, job: Option<Job>, events: seq<Event>)

  /** What a started read or save needs. */
  predicate CanStart(f: File) {
    match f
    case Ios(job, completed, _, _) => job.None? && completed.None?
    case Android(busy, _, events) => !busy && events == []
  }

  function Start(f: File, job: Job): File {
    match f
    case Ios(_, completed, _, _) => Ios(Some(job), completed, None, false)
    case Android(_, _, events) => Android(true, Some(job), events)
  }

  /** What a poll takes out, and what is left; `disabled` is whether UIKit disables editing just then. */
  function Take(f: File, disabled: bool): (File, seq<Event>) {
    match f
    case Ios(job, completed, loaded, unavailable) =>
      if job.Some? then (f, [])
      else
        (Ios(None, None, None, false),
         (if completed.Some? then [completed.value] else [])
         + (if loaded.Some? then [Loaded(loaded.value.(writable := loaded.value.writable && !disabled))] else [])
         + (if unavailable then [Gone] else []))
    case Android(busy, job, events) => (Android(busy, job, []), events)
  }

  predicate Receipt(number: nat, e: Event) {
    (e.Saved? || e.SaveFailed?) && e.operation == number
  }

  /** What happens on the native side by itself. */
  datatype Native =
    | ReRead(snapshot: FileSnapshot)
    | ReReadFailed
    | ReadDone(success: bool)
    | SaveDone(receipt: Event)
    | Pushed(event: Event)
    | Freed

  predicate NativeEnabled(f: File, n: Native) {
    match n
    case ReRead(_) => f.Ios?
    case ReReadFailed => f.Ios?
    case ReadDone(_) => f.Ios? && f.job == Some(Reading)
    case SaveDone(e) => f.Ios? && f.job.Some? && f.job.value.Saving? && Receipt(f.job.value.operation, e)
    case Pushed(e) =>
      f.Android? && f.job.Some?
      && (if f.job.value.Saving? then Receipt(f.job.value.operation, e) else e.Loaded? || e.Gone?)
    case Freed => f.Android? && f.job.None?
  }

  function Advanced(f: File, n: Native): File
    requires NativeEnabled(f, n)
  {
    match n
    case ReRead(s) => f.(loaded := Some(s), unavailable := false)
    case ReReadFailed => f.(unavailable := true)
    case ReadDone(success) =>
      if success then Ios(None, f.completed, f.loaded, f.unavailable) else Ios(None, f.completed, None, true)
    case SaveDone(e) => f.(job := None, completed := Some(e))
    case Pushed(e) => f.(job := None, events := f.events + [e])
    case Freed => f.(busy := false)
  }

  // ----- host and files together -----

  /** `batch` is what the poll in progress has taken from the files and not handled yet. */
  datatype World = World(host: Host, files: map<DocId, File>, batch: seq<(DocId, Event)>)

  /** `Collect` and `Handle` are the event part of a poll; everything else the host does is one of its own steps,
      with the adapter of the file being attached, if one is. */
  datatype Move =
    | NativeMove(id: DocId, native: Native)
    | Collect(ids: seq<DocId>, disabled: set<DocId>)
    | Handle
    | HostMove(step: Step, file: File)

  function SaveBegun(h: Host, h': Host, id: DocId): Option<nat> {
    if InFlight(h', id).Some? && InFlight(h', id) != InFlight(h, id) then Some(InFlight(h', id).value.0) else None
  }

  predicate ReadBegun(h: Host, h': Host, id: DocId) {
    id in h'.sources && h'.sources[id].read.Some? && (id in h.sources ==> h.sources[id].read != h'.sources[id].read)
  }

  /** A file was attached as the source of `id`. */
  predicate Attaching(h: Host, step: Step, id: DocId) {
    step.OpenLoaded? && OpeningLoaded(h, step.snapshot).1
    && var h' := OpeningLoaded(h, step.snapshot).0;
       h'.active.Some? && h'.active.value in h'.registry.views && h'.registry.views[h'.active.value] == id
  }

  /** What the host's step does to the adapter of `id`. */
  function FileAfter(h: Host, step: Step, id: DocId, f: File, attached: File): File {
    var h' := Apply(h, step);
    if Attaching(h, step, id) then attached
    else if SaveBegun(h, h', id).Some? then Start(f, Saving(SaveBegun(h, h', id).value))
    else if ReadBegun(h, h', id) then Start(f, Reading)
    else f
  }

  function Taken(files: map<DocId, File>, disabled: set<DocId>): map<DocId, seq<Event>> {
    map id | id in files :: Take(files[id], id in disabled).1
  }

  ghost predicate Enabled(w: World, move: Move) {
    match move
    case NativeMove(id, native) => id in w.files && NativeEnabled(w.files[id], native)
    case Collect(ids, _) =>
      w.batch == [] && Elements(ids) == w.host.sources.Keys && NoRepeats(ids)
    case Handle => w.batch != []
    case HostMove(step, _) =>
      // A native call that succeeds is one the adapter accepts; a failure may have any reason.
      && w.batch == [] && !step.SourceEvent?
      && (forall id :: id in w.files && Starting(w.host, step, id) ==> CanStart(w.files[id]))
  }

  predicate Starting(h: Host, step: Step, id: DocId) {
    !Attaching(h, step, id) && (SaveBegun(h, Apply(h, step), id).Some? || ReadBegun(h, Apply(h, step), id))
  }

  ghost function Moved(w: World, move: Move): World
    requires Enabled(w, move)
  {
    match move
    case NativeMove(id, native) => w.(files := w.files[id := Advanced(w.files[id], native)])
    case Collect(ids, disabled) =>
      w.(files := map id | id in w.files :: if id in ids then Take(w.files[id], id in disabled).0 else w.files[id],
         batch := Gathered(ids, Taken(w.files, disabled)))
    case Handle => w.(host := Apply(w.host, SourceEvent(w.batch[0].0, w.batch[0].1)), batch := w.batch[1..])
    case HostMove(step, file) =>
      var h' := Apply(w.host, step);
      w.(host := h',
         files := map id | id in w.files.Keys + h'.sources.Keys ::
                    if id in w.files then FileAfter(w.host, step, id, w.files[id], file) else file)
  }

  // ----- the receipt is on its way -----

  /** The events of one document, in order. */
  ghost function Mine(batch: seq<(DocId, Event)>, id: DocId): seq<Event> {
    if batch == [] then []
    else (if batch[0].0 == id then [batch[0].1] else []) + Mine(batch[1..], id)
  }

  /** The adapter works on this save, or its receipt is the first thing it will hand out. */
  predicate Coming(f: File, number: nat) {
    match f
    case Ios(job, completed, _, _) =>
      if completed.None? then job == Some(Saving(number)) else job.None? && Receipt(number, completed.value)
    case Android(busy, job, events) =>
      if events == [] then busy && job == Some(Saving(number))
      else job.None? && |events| == 1 && Receipt(number, events[0])
  }

  /** A save in flight has its receipt with the adapter, or next among the events already taken. */
  ghost predicate Awaited(w: World, id: DocId) {
    InFlight(w.host, id).Some? ==>
      var number := InFlight(w.host, id).value.0;
      if Mine(w.batch, id) == [] then id in w.files && Coming(w.files[id], number)
      else Receipt(number, Mine(w.batch, id)[0])
  }

  ghost predicate WorldInv(w: World) {
    && Inv(w.host) && w.host.sources.Keys <= w.files.Keys
    && (forall id :: Awaited(w, id)) && (forall id :: !Orphaned(w.host, id))
  }

  lemma {:induction false} ComingAdvances(f: File, n: Native, number: nat)
    requires NativeEnabled(f, n) && Coming(f, number)
    ensures Coming(Advanced(f, n), number)
  {}

  lemma {:induction false} ComingTaken(f: File, disabled: bool, number: nat)
    requires Coming(f, number)
    ensures var (f', events) := Take(f, disabled);
            if events == [] then Coming(f', number) else Receipt(number, events[0])
  {}

  /** An adapter at rest hands out everything it has, a completed save first and a lost file last, and keeps nothing;
      one at work on iOS hands out nothing and keeps everything. */
  lemma {:induction false} ReportsAreHandedOut(f: File, disabled: bool)
    ensures var (f', events) := Take(f, disabled);
            match f
            case Ios(job, completed, loaded, unavailable) =>
              if job.Some? then events == [] && f' == f
              else
                && f' == Ios(None, None, None, false)
                && |events| == (if completed.Some? then 1 else 0) + (if loaded.Some? then 1
                     else 0) + (if unavailable then 1 else 0)
                && (completed.Some? ==> events[0] == completed.value)
                && (unavailable ==> events[|events| - 1] == Gone)
                && (loaded.Some? ==>
                      var s := loaded.value;
                      events[if completed.Some? then 1 else 0] == Loaded(s.(writable := s.writable && !disabled)))
            case Android(busy, job, queued) => events == queued && f' == Android(busy, job, [])
  {}

  /** A job reports only itself: whatever the adapter had before, a save that ends hands out its receipt alone, and a
      read hands out what it read, or that the file is gone. */
  lemma {:induction false} JobsReportThemselves(f: File, number: nat, receipt: Event, s: FileSnapshot, disabled: bool)
    requires CanStart(f) && Receipt(number, receipt)
    ensures var saving, reading := Start(f, Saving(number)), Start(f, Reading);
            if f.Ios? then
              && Take(Advanced(saving, SaveDone(receipt)), disabled).1 == [receipt]
              && Take(Advanced(reading, ReadDone(false)), disabled).1 == [Gone]
              && Take(Advanced(Advanced(reading, ReRead(s)), ReadDone(true)), disabled).1 ==
                 [Loaded(s.(writable := s.writable && !disabled))]
            else
              && Take(Advanced(saving, Pushed(receipt)), disabled).1 == [receipt]
              && Take(Advanced(reading, Pushed(Gone)), disabled).1 == [Gone]
              && Take(Advanced(reading, Pushed(Loaded(s))), disabled).1 == [Loaded(s)]
  {}

  lemma {:induction false} MineAppend(a: seq<(DocId, Event)>, b: seq<(DocId, Event)>, id: DocId)
    ensures Mine(a + b, id) == Mine(a, id) + Mine(b, id)
    decreases |a|
  {
    if a == [] {
      assert a + b == b;
    } else {
      var head := if a[0].0 == id then [a[0].1] else [];
      assert (a + b)[0] == a[0] && (a + b)[1..] == a[1..] + b;
      MineAppend(a[1..], b, id);
      assert head + (Mine(a[1..], id) + Mine(b, id)) == (head + Mine(a[1..], id)) + Mine(b, id);
    }
  }

  lemma {:induction false} MineAllTagged(batch: seq<(DocId, Event)>, events: seq<Event>, d: DocId, id: DocId)
    requires |batch| == |events| && forall i :: 0 <= i < |batch| ==> batch[i] == (d, events[i])
    ensures Mine(batch, id) == if d == id then events else []
  {
    if batch != [] {
      MineAllTagged(batch[1..], events[1..], d, id);
      assert events == [events[0]] + events[1..];
    }
  }

  ghost function QueuedFor(queued: map<DocId, seq<Event>>, id: DocId): seq<Event> {
    if id in queued then queued[id] else []
  }

  lemma {:induction false} MineTagged(d: DocId, queued: map<DocId, seq<Event>>, id: DocId)
    ensures Mine(Tagged(d, queued), id) == if d == id then QueuedFor(queued, id) else []
  {
    MineAllTagged(Tagged(d, queued), QueuedFor(queued, d), d, id);
  }

  lemma {:induction false} MineGathered(ids: seq<DocId>, queued: map<DocId, seq<Event>>, id: DocId)
    requires NoRepeats(ids)
    ensures Mine(Gathered(ids, queued), id) == if id in ids then QueuedFor(queued, id) else []
    decreases |ids|
  {
    if ids != [] {
      var n := |ids| - 1;
      MineGathered(ids[..n], queued, id);
      MineTagged(ids[n], queued, id);
      MineAppend(Gathered(ids[..n], queued), Tagged(ids[n], queued), id);
      assert ids == ids[..n] + [ids[n]] && ids[n] !in ids[..n];
    }
  }

  // ----- every move keeps it -----

  lemma {:induction false} NativeKeepsInv(w: World, id: DocId, native: Native)
    requires WorldInv(w) && Enabled(w, NativeMove(id, native))
    ensures WorldInv(Moved(w, NativeMove(id, native)))
  {
    var w' := Moved(w, NativeMove(id, native));
    forall d ensures Awaited(w', d) {
      assert Awaited(w, d);
      if d == id && InFlight(w.host, d).Some? && Mine(w.batch, d) == [] {
        ComingAdvances(w.files[id], native, InFlight(w.host, d).value.0);
      }
    }
  }

  lemma {:induction false} CollectKeepsInv(w: World, ids: seq<DocId>, disabled: set<DocId>)
    requires WorldInv(w) && Enabled(w, Collect(ids, disabled))
    ensures WorldInv(Moved(w, Collect(ids, disabled)))
  {
    var w' := Moved(w, Collect(ids, disabled));
    forall id ensures Awaited(w', id) {
      assert Awaited(w, id);
      if InFlight(w.host, id).Some? {
        assert id in Elements(ids);
        MineGathered(ids, Taken(w.files, disabled), id);
        ComingTaken(w.files[id], id in disabled, InFlight(w.host, id).value.0);
      }
    }
  }

  /** When an event is handled while its document's save waits, it is the receipt of that save. */
  lemma {:induction false} HandledIsReceipt(w: World)
    requires WorldInv(w) && w.batch != [] && InFlight(w.host, w.batch[0].0).Some?
    ensures Receipt(InFlight(w.host, w.batch[0].0).value.0, w.batch[0].1)
  {
    assert Awaited(w, w.batch[0].0);
  }

  lemma {:induction false} ReceiptSettles(h: Host, id: DocId, e: Event)
    requires Inv(h) && InFlight(h, id).Some? && Receipt(InFlight(h, id).value.0, e)
    ensures InFlight(Apply(h, SourceEvent(id, e)), id).None?
  {
    var (number, t) := InFlight(h, id).value;
    if e.Saved? {
      MatchingReceiptIsAccepted(h, id, number, t, e.version);
    } else {
      MatchingFailureIsAccepted(h, id, number, t, e.failure);
    }
  }

  /** An event leaves the saves of other documents alone, and settles the save it is the receipt of. */
  lemma {:induction false} EventSaves(h: Host, d: DocId, e: Event, id: DocId)
    requires Inv(h)
    requires InFlight(h, d).Some? ==> Receipt(InFlight(h, d).value.0, e)
    ensures InFlight(Apply(h, SourceEvent(d, e)), id).Some? ==>
              id != d && InFlight(Apply(h, SourceEvent(d, e)), id) == InFlight(h, id)
  {
    EventStartsNoSave(h, d, e);
    if id == d && InFlight(h, d).Some? {
      ReceiptSettles(h, d, e);
    }
  }

  lemma {:induction false} HandleKeepsAwaited(w: World, id: DocId)
    requires WorldInv(w) && w.batch != []
    ensures Awaited(Moved(w, Handle), id)
  {
    var (d, e) := w.batch[0];
    assert Awaited(w, id);
    if InFlight(w.host, d).Some? {
      HandledIsReceipt(w);
    }
    EventSaves(w.host, d, e, id);
  }

  lemma {:induction false} EventAddsNoSource(h: Host, id: DocId, e: Event)
    ensures Evented(h, id, e).sources.Keys <= h.sources.Keys
  {}

  lemma {:induction false} HandleKeepsInv(w: World)
    requires WorldInv(w) && w.batch != []
    ensures WorldInv(Moved(w, Handle))
  {
    var (d, e) := w.batch[0];
    var w' := Moved(w, Handle);
    StepKeepsInv(w.host, SourceEvent(d, e));
    EventAddsNoSource(w.host, d, e);
    forall id ensures Awaited(w', id) {
      HandleKeepsAwaited(w, id);
    }
    forall id ensures !Orphaned(w'.host, id) {
      OrphanedExactlyWhenGone(w.host, SourceEvent(d, e), id);
      if id == d && InFlight(w.host, d).Some? {
        HandledIsReceipt(w);
      }
    }
  }

  lemma {:induction false} AttachedIsIdle(h: Host, step: Step, id: DocId)
    requires Attaching(h, step, id)
    ensures InFlight(Apply(h, step), id).None?
  {}

  lemma {:induction false} HostKeepsAwaited(w: World, step: Step, file: File, id: DocId)
    requires WorldInv(w) && Enabled(w, HostMove(step, file))
    ensures Awaited(Moved(w, HostMove(step, file)), id)
  {
    var h, h' := w.host, Apply(w.host, step);
    if InFlight(h', id).Some? {
      if Attaching(h, step, id) {
        AttachedIsIdle(h, step, id);
      } else {
        var started := StepStartsOne(h, step);
        StepKeepsInv(h, step);
        assert GoodSource(h'.registry, h'.operation, id, h'.sources[id]);
        HeldFile(w, step, file, id);
      }
    }
  }

  /** A document whose save is in flight after the step had its adapter before. */
  lemma {:induction false} HeldFile(w: World, step: Step, file: File, id: DocId)
    requires WorldInv(w) && Enabled(w, HostMove(step, file)) && !Attaching(w.host, step, id)
    requires InFlight(Apply(w.host, step), id).Some? && Apply(w.host, step).sources[id].read.None?
    requires InFlight(w.host, id).Some? ==> InFlight(w.host, id) == InFlight(Apply(w.host, step), id)
    ensures Awaited(Moved(w, HostMove(step, file)), id)
  {
    assert Awaited(w, id);
    SavingHadSource(w.host, step, id);
  }

  lemma {:induction false} SavingHadSource(h: Host, step: Step, id: DocId)
    requires Inv(h) && InFlight(Apply(h, step), id).Some?
    ensures id in h.sources
  {
    if InFlight(h, id).None? {
      StarterHasSource(h, step, id);
    } else {
      assert id in h.sources;
    }
  }

  lemma {:induction false} StarterHasSource(h: Host, step: Step, id: DocId)
    requires Inv(h) && InFlight(h, id).None? && InFlight(Apply(h, step), id).Some?
    ensures id in h.sources
  {
    var started := StepStartsOne(h, step);
  }

  lemma {:induction false} HostKeepsInv(w: World, step: Step, file: File)
    requires WorldInv(w) && Enabled(w, HostMove(step, file))
    ensures WorldInv(Moved(w, HostMove(step, file)))
  {
    var w' := Moved(w, HostMove(step, file));
    StepKeepsInv(w.host, step);
    forall id ensures Awaited(w', id) {
      HostKeepsAwaited(w, step, file, id);
    }
    forall id ensures !Orphaned(w'.host, id) {
      OthersLeaveNoOrphan(w.host, step, id);
    }
  }

  lemma {:induction false} MoveKeepsInv(w: World, move: Move)
    requires WorldInv(w) && Enabled(w, move)
    ensures WorldInv(Moved(w, move))
  {
    match move
    case NativeMove(id, native) => NativeKeepsInv(w, id, native);
    case Collect(ids, disabled) => CollectKeepsInv(w, ids, disabled);
    case Handle => HandleKeepsInv(w);
    case HostMove(step, file) => HostKeepsInv(w, step, file);
  }

  // ----- runs -----

  /** A host from its start, with its files, and any moves in any order. */
  ghost predicate WorldRun(trace: seq<World>, moves: seq<Move>) {
    && |trace| == |moves| + 1
    && trace[0] == World(Started(trace[0].host.nextTab), map[], [])
    && forall i {:trigger Follows(trace, moves, i)} :: 0 <= i < |moves| ==> Follows(trace, moves, i)
  }

  ghost predicate Follows(trace: seq<World>, moves: seq<Move>, i: nat)
    requires i < |moves| && i + 1 < |trace|
  {
    Enabled(trace[i], moves[i]) && trace[i + 1] == Moved(trace[i], moves[i])
  }

  lemma {:induction false} WorldRunKeepsInv(trace: seq<World>, moves: seq<Move>, k: nat)
    requires WorldRun(trace, moves) && k < |trace|
    ensures WorldInv(trace[k])
  {
    if k == 0 {
      StartsGood(trace[0].host.nextTab);
    } else {
      WorldRunKeepsInv(trace, moves, k - 1);
      assert Follows(trace, moves, k - 1);
      MoveKeepsInv(trace[k - 1], moves[k - 1]);
    }
  }

  /** Over every run with its files: a file is never reported gone to a host whose save of it waits. */
  lemma {:induction false} GoneNeverMeetsSave(trace: seq<World>, moves: seq<Move>, k: nat)
    requires WorldRun(trace, moves) && k < |moves| && moves[k].Handle?
    ensures trace[k].batch != []
    ensures trace[k].batch[0].1.Gone? ==> InFlight(trace[k].host, trace[k].batch[0].0).None?
  {
    WorldRunKeepsInv(trace, moves, k);
    assert Follows(trace, moves, k);
    if InFlight(trace[k].host, trace[k].batch[0].0).Some? {
      HandledIsReceipt(trace[k]);
    }
  }

  /** Over every run with its files: a document is marked saving exactly while a save of it is in flight, and then
      its adapter is at work on that very save, or holds its receipt, or the receipt is the next of its events. */
  lemma {:induction false} ReceiptIsOnItsWay(trace: seq<World>, moves: seq<Move>, k: nat, id: DocId)
    requires WorldRun(trace, moves) && k < |trace| && id in trace[k].host.registry.documents
    ensures trace[k].host.registry.documents[id].saving.Some? <==> InFlight(trace[k].host, id).Some?
    ensures Awaited(trace[k], id)
  {
    WorldRunKeepsInv(trace, moves, k);
    var h := trace[k].host;
    assert !Orphaned(h, id);
    if id in h.sources {
      assert GoodSource(h.registry, h.operation, id, h.sources[id]);
    }
  }

  /** The host of such a run makes a run of the host alone, so all that holds of those holds here. */
  lemma {:induction false} HostRuns(trace: seq<World>, moves: seq<Move>, k: nat)
    returns (hosts: seq<Host>, steps: seq<Step>)
    requires WorldRun(trace, moves) && k < |trace|
    ensures Run(hosts, steps) && hosts[|steps|] == trace[k].host
  {
    if k == 0 {
      hosts, steps := [trace[0].host], [];
    } else {
      hosts, steps := HostRuns(trace, moves, k - 1);
      assert Follows(trace, moves, k - 1);
      var move, before := moves[k - 1], trace[k - 1];
      if move.HostMove? {
        hosts, steps := OneStepMore(hosts, steps, move.step);
      } else if move.Handle? {
        hosts, steps := OneStepMore(hosts, steps, SourceEvent(before.batch[0].0, before.batch[0].1));
      }
    }
  }
}
