/**
 Shared press state for on-screen keys: tap, hold for an alternate, auto-repeat, cancel.
 Time is real-valued; what egui reports about the pointer is input of each frame.
 */
module KeyPresses {

  type KeyId = nat

  const HOLD_DELAY := 0.4
  const REPEAT_DELAY := 0.5
  const REPEAT_INTERVAL := 0.08

  datatype Option<T> = None | Some(value: T)
  datatype Pos = Pos(x: real, y: real)
  datatype Rect = Rect(min: Pos, max: Pos)
  datatype Repeat = Release | Hold(alternate: char) | Auto
  datatype Fired = Base | Alternate(c: char)
  datatype Press = Press(id: KeyId, origin: Pos, next: real, emitted: bool, once: bool)

  /** What one frame knows about time, window and pointer. */
  datatype Input = Input(
    time: real,
    enabled: bool, focused: bool, touches: nat, touchCancelled: bool,
    anyDown: bool, anyReleased: bool, primaryDown: bool, primaryReleased: bool,
    position: Option<Pos>)

  /** What one key's widget reports. */
  datatype Response = Response(id: KeyId, rect: Rect, downOn: bool, clicked: bool)

  datatype Keys = Keys(press: Option<Press>, blocked: bool, latched: bool)

  predicate Contains(rect: Rect, p: Pos) {
    rect.min.x <= p.x <= rect.max.x && rect.min.y <= p.y <= rect.max.y
  }

  function Center(rect: Rect): Pos {
    Pos((rect.min.x + rect.max.x) / 2.0, (rect.min.y + rect.max.y) / 2.0)
  }

  predicate Far(a: Pos, b: Pos) {
    (a.x - b.x) * (a.x - b.x) + (a.y - b.y) * (a.y - b.y) > 100.0
  }

  predicate Strayed(input: Input, rect: Rect, origin: Pos) {
    input.position.None? || !Contains(rect, input.position.value) || Far(input.position.value, origin)
  }

  predicate Interrupted(input: Input, cancel: bool) {
    cancel || !input.enabled || !input.focused || input.touches > 1 || input.touchCancelled
  }

  predicate PointerIdle(input: Input) {
    !input.anyDown && !input.anyReleased
  }

  // ----- the steps -----

  function Cancelled(s: Keys): Keys {
    s.(press := None, blocked := true)
  }

  function Begun(s: Keys, input: Input, cancel: bool): Keys {
    var s := if Interrupted(input, cancel) then Cancelled(s) else s;
    if PointerIdle(input) then s.(press := None, blocked := false) else s
  }

  function Owns(s: Keys, id: KeyId): bool {
    s.press.Some? && s.press.value.id == id
  }

  function Started(s: Keys, input: Input, r: Response, repeat: Repeat): Press {
    Press(r.id,
          if input.position.Some? then input.position.value else Center(r.rect),
          input.time + (if repeat.Auto? then REPEAT_DELAY else HOLD_DELAY),
          repeat.Auto?,
          s.latched)
  }

  /** The press after one more frame down, and what that frame sends. */
  function Down(p: Press, now: real, repeat: Repeat): (Press, Option<Fired>) {
    match repeat
    case Auto => if !p.once && now >= p.next then (p.(next := now + REPEAT_INTERVAL), Some(Base)) else (p, None)
    case Hold(c) => if !p.emitted && now >= p.next then (p.(emitted := true), Some(Alternate(c))) else (p, None)
    case Release => (p, None)
  }

  /** A key that is down: start the press, or carry on with it. */
  function KeyDown(s: Keys, input: Input, r: Response, repeat: Repeat): (Keys, Option<Fired>) {
    if s.press.None? then
      var p := Started(s, input, r, repeat);
      if repeat.Auto? then (s.(press := Some(p)), Some(Base))
      else
        var (p, fired) := Down(p, input.time, repeat);
        (s.(press := Some(p)), fired)
    else if Owns(s, r.id) then
      var (p, fired) := Down(s.press.value, input.time, repeat);
      (s.(press := Some(p)), fired)
    else (s, None)
  }

  function Keyed(s: Keys, input: Input, r: Response, repeat: Repeat): (Keys, Option<Fired>) {
    var s := if Owns(s, r.id) && Strayed(input, r.rect, s.press.value.origin) then Cancelled(s) else s;
    if s.blocked then (s, None)
    else if r.downOn || (Owns(s, r.id) && input.primaryDown) then KeyDown(s, input, r, repeat)
    else if r.clicked || (Owns(s, r.id) && input.primaryReleased) then
      (s.(press := None), if Owns(s, r.id) && s.press.value.emitted then None else Some(Base))
    else (s, None)
  }

  class KeyPress {
    var press: Option<Press>
    var blocked: bool
    var latched: bool

    ghost function State(): Keys
      reads this
    {
      Keys(press, blocked, latched)
    }

    constructor ()
      ensures State() == Keys(None, false, false)
    {
      press, blocked, latched := None, false, false;
    }

    method Cancel()
      modifies this
      ensures State() == Cancelled(old(State()))
    {
      press := None;
      blocked := true;
    }

    method Latch(on: bool)
      modifies this`latched
      ensures State() == old(State()).(latched := on)
    {
      latched := on;
    }

    method Begin(input: Input, cancel: bool)
      modifies this
      ensures State() == Begun(old(State()), input, cancel)
    {
      if cancel || !input.enabled || !input.focused || input.touches > 1 || input.touchCancelled {
        Cancel();
      }
      if !input.anyDown && !input.anyReleased {
        press := None;
        blocked := false;
      }
    }

    method Key(input: Input, r: Response, repeat: Repeat) returns (fired: Option<Fired>)
      modifies this
      ensures (State(), fired) == Keyed(old(State()), input, r, repeat)
    {
      if press.Some? && press.value.id == r.id && Strayed(input, r.rect, press.value.origin) {
        Cancel();
      }
      if blocked {
        return None;
      }
      var owns := press.Some? && press.value.id == r.id;
      if r.downOn || (owns && input.primaryDown) {
        fired := HoldDownKey(input, r, repeat);
        return fired;
      }
      var released := owns && input.primaryReleased;
      if r.clicked || released {
        var emitted := owns && press.value.emitted;
        press := None;
        return if emitted then None else Some(Base);
      }
      return None;
    }

    /** The part of `Key` for a key that is down. */
    method HoldDownKey(input: Input, r: Response, repeat: Repeat) returns (fired: Option<Fired>)
      modifies this`press
      ensures (State(), fired) == KeyDown(old(State()), input, r, repeat)
    {
      fired := None;
      if press.None? {
        var auto := repeat.Auto?;
        press := Some(Press(r.id,
                            if input.position.Some? then input.position.value else Center(r.rect),
                            input.time + (if auto then REPEAT_DELAY else HOLD_DELAY),
                            auto,
                            latched));
        if auto {
          fired := Some(Base);
        }
      }
      if press.value.id == r.id {
        var p := press.value;
        if repeat.Auto? && fired.None? && !p.once && input.time >= p.next {
          press := Some(p.(next := input.time + REPEAT_INTERVAL));
          fired := Some(Base);
        } else if repeat.Hold? && !p.emitted && input.time >= p.next {
          press := Some(p.(emitted := true));
          fired := Some(Alternate(repeat.alternate));
        }
      }
    }
  }

  // ----- cancelled presses -----

  datatype Op =
    | BeginOp(input: Input, cancel: bool)
    | KeyOp(input: Input, response: Response, repeat: Repeat)
    | CancelOp
    | LatchOp(on: bool)

  function Apply(s: Keys, op: Op): (Keys, Option<Fired>) {
    match op
    case BeginOp(input, cancel) => (Begun(s, input, cancel), None)
    case KeyOp(input, r, repeat) => Keyed(s, input, r, repeat)
    case CancelOp => (Cancelled(s), None)
    case LatchOp(on) => (s.(latched := on), None)
  }

  function RunOps(s: Keys, ops: seq<Op>): (Keys, seq<Option<Fired>>)
    decreases |ops|
  {
    if ops == [] then (s, [])
    else
      var (s', fired) := Apply(s, ops[0]);
      var (t, rest) := RunOps(s', ops[1..]);
      (t, [fired] + rest)
  }

  /** After a cancel nothing fires until a frame begins with the pointer neither down nor released. */
  lemma {:induction false} CancelSilences(s: Keys, ops: seq<Op>)
    requires s.blocked
    requires forall op :: op in ops && op.BeginOp? ==> !PointerIdle(op.input)
    ensures RunOps(s, ops).0.blocked
    ensures forall fired :: fired in RunOps(s, ops).1 ==> fired.None?
    decreases |ops|
  {
    if ops != [] {
      assert ops[0] in ops;
      assert forall op :: op in ops[1..] ==> op in ops;
      CancelSilences(Apply(s, ops[0]).0, ops[1..]);
    }
  }

  /** Every interruption, and straying off the pressed key, is such a cancel. */
  lemma {:induction false} InterruptionsCancel(s: Keys, input: Input, cancel: bool, r: Response, repeat: Repeat)
    ensures Interrupted(input, cancel) && !PointerIdle(input) ==> Begun(s, input, cancel).blocked
    ensures Owns(s, r.id) && Strayed(input, r.rect, s.press.value.origin) ==>
              Keyed(s, input, r, repeat) == (Cancelled(s), None)
  {}

  // ----- gestures -----

  /** One frame of a gesture on a key: the calls before and after the call for that key. */
  datatype Frame = Frame(input: Input, before: seq<Op>, response: Response, after: seq<Op>)

  function FrameOps(f: Frame, repeat: Repeat): seq<Op> {
    f.before + [KeyOp(f.input, f.response, repeat)] + f.after
  }

  /** All calls of some frames, in order. */
  function Ops(frames: seq<Frame>, repeat: Repeat): seq<Op> {
    if frames == [] then [] else FrameOps(frames[0], repeat) + Ops(frames[1..], repeat)
  }

  function Sending(fired: Option<Fired>): seq<Fired> {
    if fired.Some? then [fired.value] else []
  }

  /** What was sent, in order. */
  function Sent(outs: seq<Option<Fired>>): seq<Fired> {
    if outs == [] then []
    else Sending(outs[0]) + Sent(outs[1..])
  }

  /** The latch after some calls. */
  function Latched(latched: bool, ops: seq<Op>): bool
    decreases |ops|
  {
    if ops == [] then latched
    else Latched(if ops[0].LatchOp? then ops[0].on else latched, ops[1..])
  }

  /** A call that is not about `key`: another key without the pointer, the start of a key surface, or a latch. */
  predicate Aside(key: KeyId, input: Input, op: Op) {
    match op
    case BeginOp(i, cancel) => i == input && !cancel
    case KeyOp(i, r, _) => i == input && r.id != key && !r.downOn && !r.clicked
    case CancelOp => false
    case LatchOp(_) => true
  }

  ghost predicate AllAside(key: KeyId, input: Input, ops: seq<Op>) {
    forall op :: op in ops ==> Aside(key, input, op)
  }

  ghost predicate OnKey(key: KeyId, f: Frame) {
    && f.response.id == key && !Interrupted(f.input, false)
    && AllAside(key, f.input, f.before) && AllAside(key, f.input, f.after)
  }

  /** The key is down in this frame and the pointer has not strayed from `origin`. */
  ghost predicate HeldFrame(key: KeyId, origin: Pos, f: Frame) {
    && OnKey(key, f) && f.input.anyDown && (f.response.downOn || f.input.primaryDown)
    && !Strayed(f.input, f.response.rect, origin)
  }

  ghost predicate ReleaseFrame(key: KeyId, origin: Pos, f: Frame) {
    && OnKey(key, f) && f.input.anyReleased && f.input.primaryReleased
    && !f.response.downOn && !f.input.primaryDown
    && !Strayed(f.input, f.response.rect, origin)
  }

  function Origin(f: Frame): Pos {
    if f.input.position.Some? then f.input.position.value else Center(f.response.rect)
  }

  /** An uncancelled gesture: pressed in the first frame, held through the rest, then released. */
  ghost predicate Gesture(s: Keys, key: KeyId, held: seq<Frame>, last: Frame) {
    && s.press.None? && !s.blocked
    && |held| > 0
    && OnKey(key, held[0]) && held[0].input.anyDown && held[0].response.downOn
    && (forall i :: 1 <= i < |held| ==> HeldFrame(key, Origin(held[0]), held[i]))
    && ReleaseFrame(key, Origin(held[0]), last)
  }

  lemma {:induction false} SentAppend(a: seq<Option<Fired>>, b: seq<Option<Fired>>)
    ensures Sent(a + b) == Sent(a) + Sent(b)
  {
    if a == [] {
      assert a + b == b;
    } else {
      assert (a + b)[1..] == a[1..] + b;
      SentAppend(a[1..], b);
    }
  }

  lemma {:induction false} LatchedAppend(latched: bool, a: seq<Op>, b: seq<Op>)
    ensures Latched(latched, a + b) == Latched(Latched(latched, a), b)
    decreases |a|
  {
    if a == [] {
      assert a + b == b;
    } else {
      assert (a + b)[1..] == a[1..] + b;
      LatchedAppend(if a[0].LatchOp? then a[0].on else latched, a[1..], b);
    }
  }

  lemma {:induction false} RunAppend(s: Keys, a: seq<Op>, b: seq<Op>)
    ensures var (t, outs) := RunOps(s, a);
            var (u, more) := RunOps(t, b);
            RunOps(s, a + b) == (u, outs + more)
    decreases |a|
  {
    if a == [] {
      assert a + b == b;
      assert [] + RunOps(s, b).1 == RunOps(s, b).1;
    } else {
      assert (a + b)[1..] == a[1..] + b;
      var (s', fired) := Apply(s, a[0]);
      RunAppend(s', a[1..], b);
      var (t, outs) := RunOps(s', a[1..]);
      assert [fired] + (outs + RunOps(t, b).1) == ([fired] + outs) + RunOps(t, b).1;
    }
  }

  /** Running some calls and then others, in terms of what they send. */
  lemma {:induction false} SentInTurn(s: Keys, a: seq<Op>, b: seq<Op>)
    ensures var t := RunOps(s, a).0;
            && RunOps(s, a + b).0 == RunOps(t, b).0
            && Sent(RunOps(s, a + b).1) == Sent(RunOps(s, a).1) + Sent(RunOps(t, b).1)
  {
    RunAppend(s, a, b);
    SentAppend(RunOps(s, a).1, RunOps(RunOps(s, a).0, b).1);
  }

  /** Calls aside move nothing but the latch, and send nothing. */
  lemma {:induction false} AsideOnlyLatches(s: Keys, key: KeyId, input: Input, ops: seq<Op>)
    requires AllAside(key, input, ops) && !Interrupted(input, false) && !PointerIdle(input)
    requires (s.press.Some? ==> s.press.value.id == key) && !s.blocked
    ensures RunOps(s, ops).0 == s.(latched := Latched(s.latched, ops)) && Sent(RunOps(s, ops).1) == []
    decreases |ops|
  {
    if ops != [] {
      assert ops[0] in ops && Aside(key, input, ops[0]);
      assert forall op :: op in ops[1..] ==> op in ops;
      var (s', fired) := Apply(s, ops[0]);
      assert s' == s.(latched := if ops[0].LatchOp? then ops[0].on else s.latched) && fired.None?;
      AsideOnlyLatches(s', key, input, ops[1..]);
      assert ([fired] + RunOps(s', ops[1..]).1)[1..] == RunOps(s', ops[1..]).1;
    }
  }

  /** A frame on the key is the call for that key, with the latch as it is at that call. */
  lemma {:induction false} FrameIsKey(s: Keys, key: KeyId, f: Frame, repeat: Repeat)
    requires OnKey(key, f) && !PointerIdle(f.input) && !s.blocked
    requires s.press.Some? ==> s.press.value.id == key && !Strayed(f.input, f.response.rect, s.press.value.origin)
    ensures var (t, fired) := Keyed(s.(latched := Latched(s.latched, f.before)), f.input, f.response, repeat);
            && RunOps(s, FrameOps(f, repeat)).0 == t.(latched := Latched(s.latched, FrameOps(f, repeat)))
            && Sent(RunOps(s, FrameOps(f, repeat)).1) == Sending(fired)
  {
    var call := KeyOp(f.input, f.response, repeat);
    var s1 := s.(latched := Latched(s.latched, f.before));
    AsideOnlyLatches(s, key, f.input, f.before);
    KeyedStaysOnKey(s1, key, f.input, f.response, repeat);
    CallAlone(s1, call);
    AsideOnlyLatches(Keyed(s1, f.input, f.response, repeat).0, key, f.input, f.after);
    SentInTurn(s, f.before, [call]);
    SentInTurn(s, f.before + [call], f.after);
    FrameLatch(s.latched, f, repeat);
  }

  lemma {:induction false} KeyedStaysOnKey(s: Keys, key: KeyId, input: Input, r: Response, repeat: Repeat)
    requires r.id == key && !s.blocked
    requires s.press.Some? ==> s.press.value.id == key && !Strayed(input, r.rect, s.press.value.origin)
    ensures var t := Keyed(s, input, r, repeat).0;
            (t.press.Some? ==> t.press.value.id == key) && !t.blocked && t.latched == s.latched
  {}

  lemma {:induction false} FrameLatch(latched: bool, f: Frame, repeat: Repeat)
    ensures Latched(latched, FrameOps(f, repeat)) == Latched(Latched(latched, f.before), f.after)
  {
    var call := KeyOp(f.input, f.response, repeat);
    LatchedAppend(latched, f.before, [call]);
    LatchedAppend(latched, f.before + [call], f.after);
    assert [call][1..] == [];
  }

  lemma {:induction false} CallAlone(s: Keys, op: Op)
    ensures RunOps(s, [op]).0 == Apply(s, op).0 && Sent(RunOps(s, [op]).1) == Sending(Apply(s, op).1)
  {
    var (s', fired) := Apply(s, op);
    assert [op][1..] == [] && RunOps(s', []) == (s', []) && [fired] + [] == [fired];
    assert Sent([fired]) == Sending(fired) + Sent([fired][1..]);
  }

  // ----- held frames in terms of the press alone -----

  /** When the frames happen. */
  function Times(frames: seq<Frame>): seq<real> {
    seq(|frames|, i requires 0 <= i < |frames| => frames[i].input.time)
  }

  /** The press after being down at these times, and what that sends. */
  function HoldDown(p: Press, times: seq<real>, repeat: Repeat): (Press, seq<Fired>)
    decreases |times|
  {
    if times == [] then (p, [])
    else
      var (p', fired) := Down(p, times[0], repeat);
      var (q, rest) := HoldDown(p', times[1..], repeat);
      (q, Sending(fired) + rest)
  }

  lemma {:induction false} HeldFrameIsDown(s: Keys, key: KeyId, f: Frame, repeat: Repeat)
    requires s.press.Some? && s.press.value.id == key && !s.blocked && HeldFrame(key, s.press.value.origin, f)
    ensures var (p, fired) := Down(s.press.value, f.input.time, repeat);
            && p.id == key && p.origin == s.press.value.origin
            && RunOps(s, FrameOps(f, repeat)).0 == Keys(Some(p), false, Latched(s.latched, FrameOps(f, repeat)))
            && Sent(RunOps(s, FrameOps(f, repeat)).1) == Sending(fired)
  {
    FrameIsKey(s, key, f, repeat);
  }

  /** However the latch moves meanwhile, held frames only run the press. */
  lemma {:induction false} HeldIsHoldDown(s: Keys, key: KeyId, frames: seq<Frame>, repeat: Repeat)
    requires s.press.Some? && s.press.value.id == key && !s.blocked
    requires forall i :: 0 <= i < |frames| ==> HeldFrame(key, s.press.value.origin, frames[i])
    ensures var (p, sent) := HoldDown(s.press.value, Times(frames), repeat);
            var (t, outs) := RunOps(s, Ops(frames, repeat));
            && t == Keys(Some(p), false, Latched(s.latched, Ops(frames, repeat))) && Sent(outs) == sent
            && p.id == key && p.origin == s.press.value.origin
    decreases |frames|
  {
    if frames != [] {
      var p, ops := s.press.value, FrameOps(frames[0], repeat);
      assert HeldFrame(key, p.origin, frames[0]);
      HeldFrameIsDown(s, key, frames[0], repeat);
      var s' := RunOps(s, ops).0;
      forall i | 0 <= i < |frames[1..]| ensures HeldFrame(key, p.origin, frames[1..][i]) {
        assert frames[1..][i] == frames[i + 1];
      }
      assert Times(frames)[1..] == Times(frames[1..]) && Times(frames)[0] == frames[0].input.time;
      HeldIsHoldDown(s', key, frames[1..], repeat);
      SentInTurn(s, ops, Ops(frames[1..], repeat));
      LatchedAppend(s.latched, ops, Ops(frames[1..], repeat));
    }
  }

  /** The latch when the press starts: as left by the calls before the key's first one. */
  function LatchedAtStart(s: Keys, first: Frame): bool {
    Latched(s.latched, first.before)
  }

  function FirstPress(s: Keys, key: KeyId, first: Frame, repeat: Repeat): Press {
    Press(key, Origin(first), first.input.time + (if repeat.Auto? then REPEAT_DELAY else HOLD_DELAY),
          repeat.Auto?, LatchedAtStart(s, first))
  }

  lemma {:induction false} FirstFrame(s: Keys, key: KeyId, first: Frame, repeat: Repeat)
    requires s.press.None? && !s.blocked
    requires OnKey(key, first) && first.input.anyDown && first.response.downOn
    ensures RunOps(s, FrameOps(first, repeat)).0 ==
            Keys(Some(FirstPress(s, key, first, repeat)), false, Latched(s.latched, FrameOps(first, repeat)))
    ensures Sent(RunOps(s, FrameOps(first, repeat)).1) == if repeat.Auto? then [Base] else []
  {
    FrameIsKey(s, key, first, repeat);
    FirstCall(s.(latched := LatchedAtStart(s, first)), first.input, first.response, repeat);
  }

  lemma {:induction false} FirstCall(s: Keys, input: Input, r: Response, repeat: Repeat)
    requires s.press.None? && !s.blocked && r.downOn
    ensures Keyed(s, input, r, repeat) ==
            (s.(press := Some(Started(s, input, r, repeat))), if repeat.Auto? then Some(Base) else None)
  {}

  lemma {:induction false} LastFrame(s: Keys, key: KeyId, p: Press, last: Frame, repeat: Repeat)
    requires s.press == Some(p) && p.id == key && !s.blocked && ReleaseFrame(key, p.origin, last)
    ensures RunOps(s, FrameOps(last, repeat)).0 == Keys(None, false, Latched(s.latched, FrameOps(last, repeat)))
    ensures Sent(RunOps(s, FrameOps(last, repeat)).1) == if p.emitted then [] else [Base]
  {
    FrameIsKey(s, key, last, repeat);
  }

  lemma {:induction false} OpsAppend(a: seq<Frame>, b: seq<Frame>, repeat: Repeat)
    ensures Ops(a + b, repeat) == Ops(a, repeat) + Ops(b, repeat)
  {
    if a == [] {
      assert a + b == b;
    } else {
      assert (a + b)[1..] == a[1..] + b;
      OpsAppend(a[1..], b, repeat);
    }
  }

  lemma {:induction false} OpsOfOne(f: Frame, repeat: Repeat)
    ensures Ops([f], repeat) == FrameOps(f, repeat)
  {
    assert [f][1..] == [] && FrameOps(f, repeat) + [] == FrameOps(f, repeat);
  }

  /** Everything after the first frame: the held frames and the release. */
  lemma {:induction false} RestOfGesture(s: Keys, key: KeyId, start: Press, rest: seq<Frame>, last: Frame,
                                         repeat: Repeat)
    requires s.press == Some(start) && start.id == key && !s.blocked
    requires forall i :: 0 <= i < |rest| ==> HeldFrame(key, start.origin, rest[i])
    requires ReleaseFrame(key, start.origin, last)
    ensures var (p, sent) := HoldDown(start, Times(rest), repeat);
            var (t, outs) := RunOps(s, Ops(rest, repeat) + FrameOps(last, repeat));
            && t == Keys(None, false, Latched(s.latched, Ops(rest, repeat) + FrameOps(last, repeat)))
            && Sent(outs) == sent + if p.emitted then [] else [Base]
  {
    HeldIsHoldDown(s, key, rest, repeat);
    LastFrame(RunOps(s, Ops(rest, repeat)).0, key, HoldDown(start, Times(rest), repeat).0, last, repeat);
    SentInTurn(s, Ops(rest, repeat), FrameOps(last, repeat));
    LatchedAppend(s.latched, Ops(rest, repeat), FrameOps(last, repeat));
  }

  /** A whole gesture: the first frame, the held frames, and the release.  What is sent depends on the latch only
      at the key's first call. */
  lemma {:induction false} GestureRuns(s: Keys, key: KeyId, held: seq<Frame>, last: Frame, repeat: Repeat)
    requires Gesture(s, key, held, last)
    ensures var (p, sent) := HoldDown(FirstPress(s, key, held[0], repeat), Times(held[1..]), repeat);
            var ops := Ops(held + [last], repeat);
            && RunOps(s, ops).0 == s.(latched := Latched(s.latched, ops))
            && Sent(RunOps(s, ops).1) ==
               (if repeat.Auto? then [Base] else []) + (sent + if p.emitted then [] else [Base])
  {
    var first, rest := held[0], held[1..];
    var start, ops, tail := FirstPress(s, key, first, repeat), FrameOps(first, repeat), Ops(rest + [last], repeat);
    FirstFrame(s, key, first, repeat);
    forall i | 0 <= i < |rest| ensures HeldFrame(key, start.origin, rest[i]) {
      assert rest[i] == held[i + 1];
    }
    OpsAppend(rest, [last], repeat);
    OpsOfOne(last, repeat);
    RestOfGesture(RunOps(s, ops).0, key, start, rest, last, repeat);
    assert (held + [last])[0] == first && (held + [last])[1..] == rest + [last];
    SentInTurn(s, ops, tail);
    LatchedAppend(s.latched, ops, tail);
  }

  ghost predicate SomeLate(times: seq<real>, deadline: real) {
    exists i :: 0 <= i < |times| && times[i] >= deadline
  }

  lemma {:induction false} SomeLateCons(times: seq<real>, deadline: real)
    requires times != []
    ensures SomeLate(times, deadline) <==> times[0] >= deadline || SomeLate(times[1..], deadline)
  {
    assert forall i :: 0 <= i < |times[1..]| ==> times[1..][i] == times[i + 1];
    if i :| 0 <= i < |times| && times[i] >= deadline && i > 0 {
      assert times[1..][i - 1] >= deadline;
    }
  }

  lemma {:induction false} HoldFiresOnce(p: Press, times: seq<real>, c: char)
    requires !p.emitted
    ensures var (q, sent) := HoldDown(p, times, Hold(c));
            && (q.emitted <==> SomeLate(times, p.next))
            && sent == if SomeLate(times, p.next) then [Alternate(c)] else []
    decreases |times|
  {
    if times != [] {
      SomeLateCons(times, p.next);
      if times[0] >= p.next {
        EmittedStays(p.(emitted := true), times[1..], c);
      } else {
        HoldFiresOnce(p, times[1..], c);
      }
    }
  }

  lemma {:induction false} EmittedStays(p: Press, times: seq<real>, c: char)
    requires p.emitted
    ensures HoldDown(p, times, Hold(c)).0 == p && HoldDown(p, times, Hold(c)).1 == []
    decreases |times|
  {
    if times != [] {
      EmittedStays(p, times[1..], c);
    }
  }

  /** A hold key sends exactly one thing per gesture: its alternate if and only if some frame saw it
      down for at least the hold delay, and otherwise itself. */
  lemma {:induction false} HoldKey(s: Keys, key: KeyId, held: seq<Frame>, last: Frame, c: char)
    requires Gesture(s, key, held, last)
    ensures Sent(RunOps(s, Ops(held + [last], Hold(c))).1) ==
            if SomeLate(Times(held), held[0].input.time + HOLD_DELAY) then [Alternate(c)] else [Base]
  {
    GestureRuns(s, key, held, last, Hold(c));
    assert Times(held)[1..] == Times(held[1..]);
    SomeLateCons(Times(held), held[0].input.time + HOLD_DELAY);
    HoldFiresOnce(FirstPress(s, key, held[0], Hold(c)), Times(held[1..]), c);
  }

  lemma {:induction false} ReleaseIsSilentDown(p: Press, times: seq<real>)
    ensures HoldDown(p, times, Release).0 == p && HoldDown(p, times, Release).1 == []
    decreases |times|
  {
    if times != [] {
      ReleaseIsSilentDown(p, times[1..]);
    }
  }

  /** A release key sends itself exactly once, on release. */
  lemma {:induction false} ReleaseKey(s: Keys, key: KeyId, held: seq<Frame>, last: Frame)
    requires Gesture(s, key, held, last)
    ensures Sent(RunOps(s, Ops(held + [last], Release)).1) == [Base]
  {
    GestureRuns(s, key, held, last, Release);
    ReleaseIsSilentDown(FirstPress(s, key, held[0], Release), Times(held[1..]));
  }

  ghost predicate TimeFlows(times: seq<real>) {
    forall i, j :: 0 <= i < j < |times| ==> times[i] <= times[j]
  }

  /** `n` repeats need time: the last of them is at least `n - 1` intervals after the deadline. */
  lemma {:induction false} RepeatsTakeTime(p: Press, times: seq<real>)
    requires TimeFlows(times) && !p.once && p.emitted
    ensures var (q, sent) := HoldDown(p, times, Auto);
            && q.emitted
            && (forall f :: f in sent ==> f == Base)
            && (|sent| > 0 ==>
                  |times| > 0 && times[|times| - 1] >= p.next + REPEAT_INTERVAL * (|sent| - 1) as real)
    decreases |times|
  {
    if times != [] {
      var (p', fired) := Down(p, times[0], Auto);
      RepeatsTakeTime(p', times[1..]);
      assert |times| > 1 ==> times[1..][|times| - 2] == times[|times| - 1];
    }
  }

  lemma {:induction false} LatchedNeverRepeats(p: Press, times: seq<real>)
    requires p.once
    ensures HoldDown(p, times, Auto).0 == p && HoldDown(p, times, Auto).1 == []
    decreases |times|
  {
    if times != [] {
      LatchedNeverRepeats(p, times[1..]);
    }
  }

  /** A repeat happens as soon as a frame sees the key down past the deadline. */
  lemma {:induction false} RepeatsWhenLate(p: Press, times: seq<real>)
    requires !p.once
    ensures HoldDown(p, times, Auto).1 == [] <==> !SomeLate(times, p.next)
    decreases |times|
  {
    if times != [] {
      SomeLateCons(times, p.next);
      if times[0] < p.next {
        RepeatsWhenLate(p, times[1..]);
      }
    }
  }

  /** How many repeats a press gets that was down from `start` at these times. */
  lemma {:induction false} RepeatCount(p: Press, start: real, times: seq<real>)
    requires p.next == start + REPEAT_DELAY && p.emitted && TimeFlows([start] + times)
    ensures var (q, sent) := HoldDown(p, times, Auto);
            var t := ([start] + times)[|times|] - start;
            && q.emitted && (forall f :: f in sent ==> f == Base)
            && |sent| <= (if t >= REPEAT_DELAY then 1 + ((t - REPEAT_DELAY) / REPEAT_INTERVAL).Floor else 0)
            && (sent == [] <==> p.once || !SomeLate(times, p.next))
  {
    if p.once {
      LatchedNeverRepeats(p, times);
      RepeatLimit(([start] + times)[|times|] - start - REPEAT_DELAY, 0);
    } else {
      assert TimeFlows(times) by {
        assert forall i :: 0 <= i < |times| ==> times[i] == ([start] + times)[i + 1];
      }
      RepeatsTakeTime(p, times);
      RepeatsWhenLate(p, times);
      RepeatLimit(([start] + times)[|times|] - start - REPEAT_DELAY, |HoldDown(p, times, Auto).1|);
    }
  }

  lemma {:induction false} RepeatLimit(late: real, n: nat)
    requires n > 0 ==> late >= REPEAT_INTERVAL * (n - 1) as real
    ensures n <= if late >= 0.0 then 1 + (late / REPEAT_INTERVAL).Floor else 0
  {
    if n > 0 {
      FloorBound(late, n - 1);
    }
  }

  /** An auto key held for `t` seconds sends itself once, plus at most one repeat per interval after the repeat
      delay.  It sends itself exactly once if and only if a modifier was latched when the press started, whatever
      happens to the latch afterwards, or no frame saw it down for the repeat delay. */
  lemma {:induction false} AutoKey(s: Keys, key: KeyId, held: seq<Frame>, last: Frame)
    requires Gesture(s, key, held, last) && TimeFlows(Times(held))
    ensures var start := held[0].input.time;
            var t := held[|held| - 1].input.time - start;
            var sent := Sent(RunOps(s, Ops(held + [last], Auto)).1);
            && |sent| >= 1 && (forall f :: f in sent ==> f == Base)
            && |sent| <= 1 + (if t >= REPEAT_DELAY then 1 + ((t - REPEAT_DELAY) / REPEAT_INTERVAL).Floor else 0)
            && (sent == [Base] <==> LatchedAtStart(s, held[0]) || !SomeLate(Times(held), start + REPEAT_DELAY))
  {
    var start, times := held[0].input.time, Times(held[1..]);
    var p := FirstPress(s, key, held[0], Auto);
    assert Times(held) == [start] + times && Times(held)[1..] == times;
    RepeatCount(p, start, times);
    AutoSends(s, key, held, last);
    SomeLateCons(Times(held), start + REPEAT_DELAY);
    assert Times(held)[|times|] == held[|held| - 1].input.time;
  }

  lemma {:induction false} AutoSends(s: Keys, key: KeyId, held: seq<Frame>, last: Frame)
    requires Gesture(s, key, held, last)
    requires HoldDown(FirstPress(s, key, held[0], Auto), Times(held[1..]), Auto).0.emitted
    ensures Sent(RunOps(s, Ops(held + [last], Auto)).1) ==
            [Base] + HoldDown(FirstPress(s, key, held[0], Auto), Times(held[1..]), Auto).1
  {
    GestureRuns(s, key, held, last, Auto);
  }

  lemma {:induction false} FloorBound(x: real, n: int)
    requires x >= REPEAT_INTERVAL * n as real
    ensures n <= (x / REPEAT_INTERVAL).Floor
  {
    assert x / REPEAT_INTERVAL >= n as real;
  }

  // ----- exactly which frames repeat -----

  lemma {:induction false} HoldDownAppend(p: Press, times: seq<real>, now: real, repeat: Repeat)
    ensures var (q, sent) := HoldDown(p, times, repeat);
            var (r, fired) := Down(q, now, repeat);
            HoldDown(p, times + [now], repeat) == (r, sent + Sending(fired))
    decreases |times|
  {
    if times == [] {
      assert times + [now] == [now] && [now][1..] == [];
      var (r, fired) := Down(p, now, repeat);
      assert HoldDown(r, [], repeat) == (r, []) && Sending(fired) + [] == Sending(fired);
      assert [] + Sending(fired) == Sending(fired);
    } else {
      assert (times + [now])[0] == times[0] && (times + [now])[1..] == times[1..] + [now];
      var (p', fired) := Down(p, times[0], repeat);
      HoldDownAppend(p', times[1..], now, repeat);
      var (q, sent) := HoldDown(p', times[1..], repeat);
      var last := Sending(Down(q, now, repeat).1);
      assert Sending(fired) + (sent + last) == (Sending(fired) + sent) + last;
    }
  }

  /** The press sends something at time number `k`. */
  ghost predicate SendsAt(p: Press, times: seq<real>, k: nat)
    requires k < |times|
  {
    HoldDown(p, times[..k + 1], Auto).1 != HoldDown(p, times[..k], Auto).1
  }

  lemma {:induction false} SendsWhenDue(p: Press, times: seq<real>, k: nat)
    requires k < |times| && !p.once
    ensures var q, r := HoldDown(p, times[..k], Auto).0, HoldDown(p, times[..k + 1], Auto).0;
            && !q.once && (SendsAt(p, times, k) <==> times[k] >= q.next)
            && r.next == (if SendsAt(p, times, k) then times[k] + REPEAT_INTERVAL else q.next)
            && |HoldDown(p, times[..k + 1], Auto).1| ==
               |HoldDown(p, times[..k], Auto).1| + if SendsAt(p, times, k) then 1 else 0
  {
    NeverOnce(p, times[..k]);
    assert times[..k + 1] == times[..k] + [times[k]];
    HoldDownAppend(p, times[..k], times[k], Auto);
  }

  lemma {:induction false} NeverOnce(p: Press, times: seq<real>)
    requires !p.once
    ensures !HoldDown(p, times, Auto).0.once
    decreases |times|
  {
    if times != [] {
      NeverOnce(Down(p, times[0], Auto).0, times[1..]);
    }
  }

  /** The deadline after `k` times is one interval after the last send, or the first deadline without one. */
  lemma {:induction false} Deadline(p: Press, times: seq<real>, k: nat)
    requires k <= |times| && !p.once && TimeFlows(times)
    ensures var next := HoldDown(p, times[..k], Auto).0.next;
            && next >= p.next && (forall j :: 0 <= j < k && SendsAt(p, times, j) ==> next >= times[j] + REPEAT_INTERVAL)
            && (next == p.next || exists j :: 0 <= j < k && SendsAt(p, times, j) && next == times[j] + REPEAT_INTERVAL)
    decreases k
  {
    if k > 0 {
      Deadline(p, times, k - 1);
      SendsWhenDue(p, times, k - 1);
      assert times[..k - 1 + 1] == times[..k];
    }
  }

  /** The press sends at a time if and only if the first deadline has passed and a full interval since each send. */
  lemma {:induction false} RepeatsExactly(p: Press, times: seq<real>, k: nat)
    requires k < |times| && !p.once && TimeFlows(times)
    ensures SendsAt(p, times, k) <==>
              times[k] >= p.next && forall j :: 0 <= j < k && SendsAt(p, times, j) ==>
                  times[k] >= times[j] + REPEAT_INTERVAL
  {
    SendsWhenDue(p, times, k);
    Deadline(p, times, k);
  }

  /** `n` times `x`. */
  function Repeated(n: nat, x: real): real {
    if n == 0 then 0.0 else Repeated(n - 1, x) + x
  }

  lemma {:induction false} RepeatedIsProduct(n: nat, x: real)
    ensures Repeated(n, x) == x * n as real
  {
    if n > 0 {
      RepeatedIsProduct(n - 1, x);
      assert n as real == (n - 1) as real + 1.0;
      assert x * ((n - 1) as real + 1.0) == x * (n - 1) as real + x;
    }
  }

  /** Repeats keep up with the interval: frames that are at most `gap` apart miss no more than that each time. */
  lemma {:induction false} RepeatsKeepUp(p: Press, start: real, times: seq<real>, gap: real, k: nat)
    requires !p.once && p.next > start && k <= |times|
    requires forall i :: 0 <= i < |times| ==> times[i] <= (if i == 0 then start else times[i - 1]) + gap
    ensures var (q, sent) := HoldDown(p, times[..k], Auto);
            && (if k == 0 then start else times[k - 1]) < q.next
            && q.next <= p.next + Repeated(|sent|, REPEAT_INTERVAL + gap)
    decreases k
  {
    if k == 0 {
      assert times[..k] == [];
    } else {
      RepeatsKeepUp(p, start, times, gap, k - 1);
      SendsWhenDue(p, times, k - 1);
      assert times[..k - 1 + 1] == times[..k];
      var (q, sent) := HoldDown(p, times[..k - 1], Auto);
      var before := if k == 1 then start else times[k - 2];
      assert before < q.next && times[k - 1] <= before + gap;
      if SendsAt(p, times, k - 1) {
        assert Repeated(|sent| + 1, REPEAT_INTERVAL + gap) ==
               Repeated(|sent|, REPEAT_INTERVAL + gap) + (REPEAT_INTERVAL + gap);
      }
    }
  }

  /** Frame `i` of the gesture sends something. */
  ghost predicate FrameSends(s: Keys, held: seq<Frame>, i: nat)
    requires i < |held|
  {
    Sent(RunOps(s, Ops(held[..i + 1], Auto)).1) != Sent(RunOps(s, Ops(held[..i], Auto)).1)
  }

  lemma {:induction false} PrefixSends(s: Keys, key: KeyId, held: seq<Frame>, last: Frame, i: nat)
    requires Gesture(s, key, held, last) && 1 <= i <= |held|
    ensures Sent(RunOps(s, Ops(held[..i], Auto)).1) ==
            [Base] + HoldDown(FirstPress(s, key, held[0], Auto), Times(held[1..])[..i - 1], Auto).1
  {
    var first, rest := held[0], held[1..i];
    var start, ops := FirstPress(s, key, first, Auto), FrameOps(first, Auto);
    FirstFrame(s, key, first, Auto);
    forall m | 0 <= m < |rest| ensures HeldFrame(key, start.origin, rest[m]) {
      assert rest[m] == held[m + 1];
    }
    HeldIsHoldDown(RunOps(s, ops).0, key, rest, Auto);
    assert Times(rest) == Times(held[1..])[..i - 1];
    assert held[..i][0] == first && held[..i][1..] == rest;
    SentInTurn(s, ops, Ops(rest, Auto));
  }

  /** Over a gesture on an auto key: the first frame sends; and unless a modifier was latched at the start, a later
      frame sends if and only if it is at least the repeat delay after the start and at least the repeat interval
      after every repeat before it. */
  lemma {:induction false} AutoKeyFrames(s: Keys, key: KeyId, held: seq<Frame>, last: Frame, i: nat)
    requires Gesture(s, key, held, last) && TimeFlows(Times(held)) && 1 <= i < |held|
    requires !LatchedAtStart(s, held[0])
    ensures Sent(RunOps(s, Ops(held[..1], Auto)).1) == [Base]
    ensures FrameSends(s, held, i) <==>
              && held[i].input.time >= held[0].input.time + REPEAT_DELAY
              && forall j :: 1 <= j < i && FrameSends(s, held, j) ==>
                   held[i].input.time >= held[j].input.time + REPEAT_INTERVAL
  {
    var p, times := FirstPress(s, key, held[0], Auto), Times(held[1..]);
    assert forall m :: 0 <= m < |times| ==> times[m] == Times(held)[m + 1];
    FirstSends(s, key, held, last);
    FramesMatch(s, key, held, last, i);
    RepeatsCounted(p, times, i);
  }

  lemma {:induction false} FirstSends(s: Keys, key: KeyId, held: seq<Frame>, last: Frame)
    requires Gesture(s, key, held, last)
    ensures Sent(RunOps(s, Ops(held[..1], Auto)).1) == [Base]
  {
    PrefixSends(s, key, held, last, 1);
  }

  /** `SendsAt` with frames counted from the first. */
  ghost predicate LaterSends(p: Press, times: seq<real>, j: nat)
    requires 1 <= j <= |times|
  {
    SendsAt(p, times, j - 1)
  }

  lemma {:induction false} FramesMatch(s: Keys, key: KeyId, held: seq<Frame>, last: Frame, i: nat)
    requires Gesture(s, key, held, last) && 1 <= i < |held|
    ensures forall j :: 1 <= j <= i ==>
              (FrameSends(s, held, j) <==> LaterSends(FirstPress(s, key, held[0], Auto), Times(held[1..]), j))
  {
    forall j | 1 <= j <= i
      ensures FrameSends(s, held, j) <==> LaterSends(FirstPress(s, key, held[0], Auto), Times(held[1..]), j)
    {
      FrameSendsAt(s, key, held, last, j);
    }
  }

  lemma {:induction false} RepeatsCounted(p: Press, times: seq<real>, i: nat)
    requires 1 <= i <= |times| && !p.once && TimeFlows(times)
    ensures LaterSends(p, times, i) <==>
              && times[i - 1] >= p.next
              && forall j :: 1 <= j < i && LaterSends(p, times, j) ==> times[i - 1] >= times[j - 1] + REPEAT_INTERVAL
  {
    RepeatsExactly(p, times, i - 1);
    if j :| 0 <= j < i - 1 && SendsAt(p, times, j) && times[i - 1] < times[j] + REPEAT_INTERVAL {
      assert LaterSends(p, times, j + 1);
    }
  }

  lemma {:induction false} FrameSendsAt(s: Keys, key: KeyId, held: seq<Frame>, last: Frame, j: nat)
    requires Gesture(s, key, held, last) && 1 <= j < |held|
    ensures FrameSends(s, held, j) <==> SendsAt(FirstPress(s, key, held[0], Auto), Times(held[1..]), j - 1)
  {
    PrefixSends(s, key, held, last, j);
    PrefixSends(s, key, held, last, j + 1);
    var p, times := FirstPress(s, key, held[0], Auto), Times(held[1..]);
    var a, b := HoldDown(p, times[..j - 1], Auto).1, HoldDown(p, times[..j], Auto).1;
    assert times[..j - 1 + 1] == times[..j];
    assert ([Base] + a)[1..] == a && ([Base] + b)[1..] == b;
  }

  /** The rate from below: while frames are at most `gap` apart, the time held is less than the repeat delay and one
      interval and gap for each repeat. */
  lemma {:induction false} AutoKeyKeepsUp(s: Keys, key: KeyId, held: seq<Frame>, last: Frame, gap: real)
    requires Gesture(s, key, held, last) && !LatchedAtStart(s, held[0])
    requires forall i :: 1 <= i < |held| ==> held[i].input.time <= held[i - 1].input.time + gap
    ensures var sent := Sent(RunOps(s, Ops(held, Auto)).1);
            && sent != []
            && held[|held| - 1].input.time <
               held[0].input.time + REPEAT_DELAY + Repeated(|sent| - 1, REPEAT_INTERVAL + gap)
  {
    var p, times, n := FirstPress(s, key, held[0], Auto), Times(held[1..]), |held| - 1;
    assert forall i :: 0 <= i < n ==> times[i] == held[i + 1].input.time;
    PrefixSends(s, key, held, last, |held|);
    assert held[..|held|] == held && times[..n] == times;
    RepeatsKeepUp(p, held[0].input.time, times, gap, n);
  }

  // ----- keys and clicks outside a gesture -----

  /** A click on a key that nobody holds, from assistive technology say, sends the key itself. */
  lemma {:induction false} ClickSends(s: Keys, input: Input, r: Response, repeat: Repeat)
    requires s.press.None? && !s.blocked && r.clicked && !r.downOn
    ensures Keyed(s, input, r, repeat) == (s, Some(Base))
  {}

  /** While one key is held, the pointer going down on another one does nothing. */
  lemma {:induction false} OneKeyAtATime(s: Keys, input: Input, r: Response, repeat: Repeat)
    requires s.press.Some? && s.press.value.id != r.id && !s.blocked && r.downOn
    ensures Keyed(s, input, r, repeat) == (s, None)
  {}

  /** A frame with the pointer neither down nor released lets keys work again, whatever was cancelled before. */
  lemma {:induction false} IdleFrameResets(s: Keys, input: Input, cancel: bool)
    requires PointerIdle(input)
    ensures Begun(s, input, cancel) == Keys(None, false, s.latched)
  {}

  /** A pointer on its key strays exactly when it is more than ten points from where it went down. */
  lemma {:induction false} StraysBeyondTen(input: Input, rect: Rect, origin: Pos, dx: real, dy: real)
    requires input.position == Some(Pos(origin.x + dx, origin.y + dy))
    requires rect.min.x <= origin.x + dx <= rect.max.x && rect.min.y <= origin.y + dy <= rect.max.y
    ensures Strayed(input, rect, origin) <==> dx * dx + dy * dy > 10.0 * 10.0
  {}
}
