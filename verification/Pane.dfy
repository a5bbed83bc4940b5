/**
 A directory pane whose listings come back from racing worker threads.
 Each load owns a channel; a worker may reply at any time, also after it was superseded.
 */
module Panes {

  type Path = string
  type Name = string

  datatype Option<T> = None | Some(value: T)
  datatype Reply = Listed(entries: seq<Name>) | Refused(error: string)

  /** One started load: its target and, once the thread has answered and nobody has taken it, the reply. */
  datatype Load = Load(target: Path, reply: Option<Reply>)

  /** `loads` lists every load ever started, load number `g` at index `g - 1`; `applied` is the
      history of successful applies: load number, target and listing. */
  datatype PaneState = PaneState(
    loads: seq<Load>,
    generation: nat,
    pending: Option<(Path, nat)>,
    path: Path,
    listing: Option<seq<Name>>,
    error: Option<string>,
    selected: set<Name>,
    applied: seq<(nat, Path, seq<Name>)>)

  function Names(entries: seq<Name>): set<Name> {
    set n | n in entries
  }

  function Fresh(path: Path): PaneState {
    PaneState([], 0, None, path, None, None, {}, [])
  }

  predicate Sound(s: PaneState) {
    s.pending.Some? ==> 1 <= s.pending.value.1 <= |s.loads|
  }

  function Loaded(s: PaneState, target: Path): PaneState {
    s.(loads := s.loads + [Load(target, None)],
       generation := s.generation + 1,
       pending := Some((target, |s.loads| + 1)))
  }

  function Visited(s: PaneState, target: Path): PaneState {
    Loaded(s.(selected := {}), target)
  }

  function Polled(s: PaneState): (PaneState, bool)
    requires Sound(s)
  {
    if s.pending.None? then (s, false)
    else
      var (target, channel) := s.pending.value;
      var load := s.loads[channel - 1];
      if load.reply.None? then (s, false)
      else
        var s := s.(loads := s.loads[channel - 1 := load.(reply := None)]);
        // The reply carries the number of its own load, which names the channel it came through.
        if channel != s.generation then (s, false)
        else
          var s := s.(pending := None);
          match load.reply.value
          case Listed(entries) =>
            (s.(path := target, error := None, selected := s.selected * Names(entries), listing := Some(entries),
                applied := s.applied + [(channel, target, entries)]), true)
          case Refused(error) => (s.(error := Some(error)), true)
  }

  class Pane {
    var path: Path
    var listing: Option<seq<Name>>
    var error: Option<string>
    var selected: set<Name>
    var generation: nat
    var pending: Option<(Path, nat)>
    var loads: seq<Load>
    ghost var applied: seq<(nat, Path, seq<Name>)>

    ghost function State(): PaneState
      reads this
    {
      PaneState(loads, generation, pending, path, listing, error, selected, applied)
    }

    constructor (path: Path)
      ensures State() == Fresh(path)
    {
      this.path := path;
      listing, error, selected, generation, pending, loads, applied := None, None, {}, 0, None, [], [];
    }

    method LoadPath(target: Path)
      modifies this
      ensures State() == Loaded(old(State()), target)
    {
      generation := generation + 1;
      loads := loads + [Load(target, None)];
      pending := Some((target, |loads|));
    }

    method Refresh()
      modifies this
      ensures State() == Loaded(old(State()), old(path))
    {
      LoadPath(path);
    }

    /** `joined` is what the file system makes of the current path and the name, if anything. */
    method OpenDir(joined: Option<Path>)
      modifies this
      ensures State() == if joined.Some? then Visited(old(State()), joined.value) else old(State())
    {
      if joined.Some? {
        selected := {};
        LoadPath(joined.value);
      }
    }

    method GoTo(target: Path)
      modifies this
      ensures State() == Visited(old(State()), target)
    {
      selected := {};
      LoadPath(target);
    }

    method Poll() returns (changed: bool)
      requires Sound(State())
      modifies this
      ensures (State(), changed) == Polled(old(State()))
    {
      if pending.None? {
        return false;
      }
      var (target, channel) := pending.value;
      var load := loads[channel - 1];
      if load.reply.None? {
        return false;
      }
      loads := loads[channel - 1 := load.(reply := None)];
      if channel != generation {
        return false;
      }
      pending := None;
      match load.reply.value {
        case Listed(entries) =>
          path := target;
          error := None;
          var names := Names(entries);
          selected := set name | name in selected && name in names;
          listing := Some(entries);
          applied := applied + [(channel, target, entries)];
          assert selected == old(selected) * names;
        case Refused(message) =>
          error := Some(message);
      }
      return true;
    }
  }

  // ----- runs -----

  datatype Step =
    | Start(target: Path)
    | Visit(target: Path)
    | Toggle(name: Name)
    | Answer(load: nat, reply: Reply)
    | Poll

  ghost predicate Enabled(s: PaneState, step: Step) {
    match step
    case Answer(g, _) => 1 <= g <= |s.loads| && s.loads[g - 1].reply.None?
    case _ => true
  }

  ghost function Apply(s: PaneState, step: Step): PaneState
    requires Sound(s) && Enabled(s, step)
  {
    match step
    case Start(target) => Loaded(s, target)
    case Visit(target) => Visited(s, target)
    case Toggle(name) => s.(selected := if name in s.selected then s.selected - {name} else s.selected + {name})
    case Answer(g, reply) => s.(loads := s.loads[g - 1 := s.loads[g - 1].(reply := Some(reply))])
    case Poll => Polled(s).0
  }

  ghost predicate Increasing(applied: seq<(nat, Path, seq<Name>)>) {
    forall i, j :: 0 <= i < j < |applied| ==> applied[i].0 < applied[j].0
  }

  /** Every applied path is the target of the load it came from. */
  ghost predicate Genuine(applied: seq<(nat, Path, seq<Name>)>, loads: seq<Load>) {
    forall a :: a in applied ==> 1 <= a.0 <= |loads| && a.1 == loads[a.0 - 1].target
  }

  ghost predicate Inv(s: PaneState) {
    && Sound(s)
    && s.generation == |s.loads|
    && (s.pending.Some? ==> s.pending.value.1 == s.generation && s.pending.value.0 == s.loads[s.generation - 1].target)
    && (s.pending.Some? ==> forall a :: a in s.applied ==> a.0 < s.generation)
    && Increasing(s.applied) && Genuine(s.applied, s.loads)
    && (|s.applied| > 0 ==>
          var (_, target, entries) := s.applied[|s.applied| - 1];
          s.path == target && s.listing == Some(entries))
    && (|s.applied| == 0 ==> s.listing == None)
  }

  lemma {:induction false} StepKeepsInv(s: PaneState, step: Step)
    requires Inv(s) && Enabled(s, step)
    ensures Inv(Apply(s, step))
  {
    match step
    case Poll => PollKeepsInv(s);
    case Start(target) => LoadKeepsInv(s, target);
    case Visit(target) => LoadKeepsInv(s.(selected := {}), target);
    case Toggle(_) =>
    case Answer(_, _) =>
  }

  lemma {:induction false} LoadKeepsInv(s: PaneState, target: Path)
    requires Inv(s)
    ensures Inv(Loaded(s, target))
  {}

  lemma {:induction false} PollKeepsInv(s: PaneState)
    requires Inv(s)
    ensures Inv(Polled(s).0)
  {
    var t := Polled(s).0;
    assert Genuine(s.applied, t.loads);
    if t.applied != s.applied {
      var (g, target, entries) := t.applied[|t.applied| - 1];
      assert t.applied == s.applied + [(g, target, entries)] && g == s.generation;
      assert Increasing(t.applied);
    }
  }

  ghost predicate Run(path: Path, trace: seq<PaneState>, steps: seq<Step>) {
    && |trace| == |steps| + 1 && trace[0] == Fresh(path)
    && forall i {:trigger Linked(trace, steps, i)} :: 0 <= i < |steps| ==> Linked(trace, steps, i)
  }

  ghost predicate Linked(trace: seq<PaneState>, steps: seq<Step>, i: nat)
    requires i < |steps| && i + 1 < |trace|
  {
    Sound(trace[i]) && Enabled(trace[i], steps[i]) && trace[i + 1] == Apply(trace[i], steps[i])
  }

  /** In every run the shown path and listing come from one and the same load, and applied
      loads are in strictly increasing order. */
  lemma {:induction false} RunKeepsInv(path: Path, trace: seq<PaneState>, steps: seq<Step>, k: nat)
    requires Run(path, trace, steps) && k < |trace|
    ensures Inv(trace[k])
    decreases k
  {
    if k > 0 {
      RunKeepsInv(path, trace, steps, k - 1);
      assert Linked(trace, steps, k - 1);
      StepKeepsInv(trace[k - 1], steps[k - 1]);
    }
  }

  /** The shown path, listing and history change only by a poll that takes the reply of the
      newest load; then the selection names listed entries only. */
  lemma {:induction false} OnlyTheNewestLoadApplies(path: Path, trace: seq<PaneState>, steps: seq<Step>, k: nat)
    requires Run(path, trace, steps) && k < |steps|
    requires trace[k + 1].listing != trace[k].listing || trace[k + 1].path != trace[k].path
             || trace[k + 1].applied != trace[k].applied
    ensures Sound(trace[k]) && steps[k].Poll? && Polled(trace[k]).1
    ensures var s, t := trace[k], trace[k + 1];
            var newest := |s.loads|;
            && newest > 0 && s.loads[newest - 1].reply.Some? && s.loads[newest - 1].reply.value.Listed?
            && var entries := s.loads[newest - 1].reply.value.entries;
               && t.path == s.loads[newest - 1].target && t.listing == Some(entries)
               && t.applied == s.applied + [(newest, t.path, entries)]
               && t.selected == s.selected * Names(entries) && t.selected <= Names(entries)
               && t.pending.None?
  {
    RunKeepsInv(path, trace, steps, k);
    assert Linked(trace, steps, k);
  }

  /** A superseded load is never applied afterwards. */
  lemma {:induction false} SupersededIsNeverApplied(path: Path, trace: seq<PaneState>, steps: seq<Step>, i: nat,
                                                    k: nat, g: nat)
    requires Run(path, trace, steps) && i <= k < |trace|
    requires 1 <= g < |trace[i].loads|
    requires forall a :: a in trace[i].applied ==> a.0 != g
    ensures forall a :: a in trace[k].applied ==> a.0 != g
    ensures |trace[i].loads| <= |trace[k].loads|
    decreases k
  {
    if i < k {
      SupersededIsNeverApplied(path, trace, steps, i, k - 1, g);
      assert Linked(trace, steps, k - 1);
      LoadsGrow(trace[k - 1], steps[k - 1]);
      if trace[k].applied != trace[k - 1].applied {
        OnlyTheNewestLoadApplies(path, trace, steps, k - 1);
      }
    }
  }

  lemma {:induction false} LoadsGrow(s: PaneState, step: Step)
    requires Sound(s) && Enabled(s, step)
    ensures |s.loads| <= |Apply(s, step).loads|
  {}

  // ----- replies are applied -----

  /** What a poll does with the reply of the newest load: a listing is shown together with the path it was asked
      for; a refusal is reported and leaves what is shown as it was.  Either way the load is over. */
  lemma {:induction false} NewestReplyIsTaken(path: Path, trace: seq<PaneState>, steps: seq<Step>, k: nat)
    requires Run(path, trace, steps) && k < |steps| && steps[k].Poll? && trace[k].pending.Some?
    ensures Sound(trace[k]) && trace[k].loads != []
    ensures var s, t, load := trace[k], trace[k + 1], trace[k].loads[|trace[k].loads| - 1];
            match load.reply
            case None => t == s && !Polled(s).1
            case Some(Listed(entries)) =>
              && t.path == load.target && t.listing == Some(entries) && t.error.None? && t.pending.None?
              && t.selected == s.selected * Names(entries)
              && t.applied == s.applied + [(|s.loads|, load.target, entries)] && Polled(s).1
            case Some(Refused(error)) =>
              && t.error == Some(error) && t.pending.None? && Polled(s).1
              && t.path == s.path && t.listing == s.listing && t.selected == s.selected && t.applied == s.applied
  {
    RunKeepsInv(path, trace, steps, k);
    assert Linked(trace, steps, k);
  }

  /** Without a load in progress a poll changes nothing. */
  lemma {:induction false} IdlePollIsSilent(s: PaneState)
    requires Sound(s) && s.pending.None?
    ensures Polled(s) == (s, false)
  {}

  /** Step i asks for `target`, nothing else is asked for until k, and only step j answers that load. */
  ghost predicate Asked(trace: seq<PaneState>, steps: seq<Step>, i: nat, j: nat, k: nat, target: Path, reply: Reply)
    requires i < j < k < |steps| < |trace|
  {
    var load := |trace[i].loads| + 1;
    && steps[i] in {Start(target), Visit(target)} && steps[j] == Answer(load, reply)
    && (forall m :: i < m < k ==> !steps[m].Start? && !steps[m].Visit?)
    && (forall m :: i < m < k && steps[m].Answer? && steps[m].load == load ==> m == j)
    && (forall m :: j < m < k ==> !steps[m].Poll?)
  }

  lemma {:induction false} StillLoading(path: Path, trace: seq<PaneState>, steps: seq<Step>, i: nat, j: nat, k: nat,
                                        m: nat, target: Path, reply: Reply)
    requires Run(path, trace, steps) && i < j < k < |steps| && Asked(trace, steps, i, j, k, target, reply)
    requires i < m <= k
    ensures var load := |trace[i].loads| + 1;
            && |trace[m].loads| == load && trace[m].pending == Some((target, load))
            && trace[m].loads[load - 1] == Load(target, if m <= j then None else Some(reply))
    decreases m
  {
    RunKeepsInv(path, trace, steps, m - 1);
    assert Linked(trace, steps, m - 1);
    if m > i + 1 {
      StillLoading(path, trace, steps, i, j, k, m - 1, target, reply);
      LoadingStep(trace[m - 1], steps[m - 1], target);
    }
  }

  /** While a load is in progress, only its answer, a poll that finds the answer or another load change that. */
  lemma {:induction false} LoadingStep(s: PaneState, step: Step, target: Path)
    requires Inv(s) && Enabled(s, step) && !step.Start? && !step.Visit? && s.loads != []
    requires s.pending == Some((target, |s.loads|))
    requires step.Poll? ==> s.loads[|s.loads| - 1].reply.None?
    ensures var t, newest := Apply(s, step), |s.loads|;
            && |t.loads| == newest && t.pending == s.pending
            && t.loads[newest - 1] ==
               s.loads[newest - 1].(reply := if step.Answer? && step.load == newest then Some(step.reply)
                                             else s.loads[newest - 1].reply)
  {}

  /** Over every run: a folder that is asked for opens.  Once its load answers with a listing, and nothing else was
      asked for since, the next poll shows that folder and that listing. */
  lemma {:induction false} AskedFolderOpens(path: Path, trace: seq<PaneState>, steps: seq<Step>, i: nat, j: nat,
                                            k: nat, target: Path, entries: seq<Name>)
    requires Run(path, trace, steps) && i < j < k < |steps| && steps[k].Poll?
    requires Asked(trace, steps, i, j, k, target, Listed(entries))
    ensures trace[k + 1].path == target && trace[k + 1].listing == Some(entries)
    ensures trace[k + 1].error.None? && trace[k + 1].pending.None?
  {
    StillLoading(path, trace, steps, i, j, k, k, target, Listed(entries));
    NewestReplyIsTaken(path, trace, steps, k);
  }

  /** Over every run: a folder that cannot be listed is reported by the next poll, and the pane stays where it is. */
  lemma {:induction false} RefusalIsReported(path: Path, trace: seq<PaneState>, steps: seq<Step>, i: nat, j: nat,
                                             k: nat, target: Path, error: string)
    requires Run(path, trace, steps) && i < j < k < |steps| && steps[k].Poll?
    requires Asked(trace, steps, i, j, k, target, Refused(error))
    ensures trace[k + 1].error == Some(error) && trace[k + 1].pending.None?
    ensures trace[k + 1].path == trace[k].path && trace[k + 1].listing == trace[k].listing
  {
    StillLoading(path, trace, steps, i, j, k, k, target, Refused(error));
    NewestReplyIsTaken(path, trace, steps, k);
  }

  /** Going somewhere drops the selection, reloading keeps it; both keep what is shown until the answer. */
  lemma {:induction false} AskingKeepsWhatIsShown(s: PaneState, target: Path)
    requires Sound(s)
    ensures var t := Apply(s, Visit(target));
            t.path == s.path && t.listing == s.listing && t.error == s.error && t.selected == {}
    ensures var t := Apply(s, Start(target));
            t.path == s.path && t.listing == s.listing && t.error == s.error && t.selected == s.selected
  {}
}
