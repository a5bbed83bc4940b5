/**
 The path-data interpreter of the icon validator (section 9.3 of SVG 2), on tokens.
 Coordinates are exact reals; arc sampling and the closing tolerance are parameters.
 */
module SvgPath {

  datatype Point = Point(x: real, y: real)
  datatype Token = Cmd(letter: char) | Num(value: real)
  datatype Option<T> = None | Some(value: T)
  datatype Outcome<T> = Ok(value: T) | Err(error: Fault)
  datatype Fault = NoMoveTo | NoActiveSubpath | NoCommand | MissingParameters | BadArcFlag | EmptySubpath | Unsupported

  type Polyline = seq<Point>

  const BEZIER_STEPS: nat := 8

  /** What the interpreter takes as given: how an arc is sampled and when two points coincide. */
  datatype Geometry = Geometry(
    arc: (Point, real, real, real, bool, bool, Point) -> seq<Point>,
    same: (Point, Point) -> bool)

  datatype Pen = Pen(command: Option<char>, current: Point, start: Point, points: seq<Point>, subpaths: seq<Polyline>)

  const INITIAL := Pen(None, Point(0.0, 0.0), Point(0.0, 0.0), [], [])

  function IsLower(c: char): bool {
    'a' <= c <= 'z'
  }

  function Upper(c: char): char {
    if IsLower(c) then (c as int - 32) as char else c
  }

  function Arity(op: char): nat {
    match op
    case 'M' => 2
    case 'L' => 2
    case 'H' => 1
    case 'V' => 1
    case 'C' => 6
    case 'A' => 7
    case _ => 0
  }

  // ----- curves -----

  /** One coordinate of a cubic curve. */
  function Cube(a: real, b: real, c: real, d: real, t: real): real {
    var u := 1.0 - t;
    u * u * u * a + 3.0 * u * u * t * b + 3.0 * u * t * t * c + t * t * t * d
  }

  function CubicAt(a: Point, b: Point, c: Point, d: Point, t: real): Point {
    Point(Cube(a.x, b.x, c.x, d.x, t), Cube(a.y, b.y, c.y, d.y, t))
  }

  function Cubic(a: Point, b: Point, c: Point, d: Point): seq<Point> {
    seq(BEZIER_STEPS - 1, i requires 0 <= i => CubicAt(a, b, c, d, (i + 1) as real / BEZIER_STEPS as real)) + [d]
  }

  method CubicPoints(a: Point, b: Point, c: Point, d: Point) returns (points: seq<Point>)
    ensures points == Cubic(a, b, c, d)
  {
    points := [];
    for index := 1 to BEZIER_STEPS
      invariant |points| == index - 1
      invariant forall i :: 0 <= i < index - 1 ==>
                  points[i] == CubicAt(a, b, c, d, (i + 1) as real / BEZIER_STEPS as real)
    {
      var t := index as real / BEZIER_STEPS as real;
      points := points + [CubicAt(a, b, c, d, t)];
    }
    points := points + [d];
  }

  // ----- the meaning of a token list -----

  /** The next `count` tokens as numbers. */
  function Values(rest: seq<Token>, count: nat): Option<seq<real>> {
    if count > |rest| || exists i :: 0 <= i < count && rest[i].Cmd? then None
    else Some(seq(count, i requires 0 <= i < count && rest[i].Num? => rest[i].value))
  }

  function Numbers(values: seq<real>): seq<Token> {
    seq(|values|, i requires 0 <= i < |values| => Num(values[i]))
  }

  /** Relative coordinates of `op` as absolute ones. */
  function ToAbsolute(op: char, v: seq<real>, current: Point): (w: seq<real>)
    requires |v| == Arity(op)
    ensures |w| == |v|
  {
    match op
    case 'M' => [v[0] + current.x, v[1] + current.y]
    case 'L' => [v[0] + current.x, v[1] + current.y]
    case 'H' => [v[0] + current.x]
    case 'V' => [v[0] + current.y]
    case 'C' =>
      var (x, y) := (current.x, current.y);
      [v[0] + x, v[1] + y, v[2] + x, v[3] + y, v[4] + x, v[5] + y]
    case 'A' => [v[0], v[1], v[2], v[3], v[4], v[5] + current.x, v[6] + current.y]
    case _ => v
  }

  function Finished(pen: Pen): Outcome<Pen> {
    if pen.points == [] then Ok(pen)
    else if |pen.points| < 2 then Err(EmptySubpath)
    else Ok(pen.(subpaths := pen.subpaths + [pen.points], points := []))
  }

  function MovedTo(pen: Pen, to: Point, points: seq<Point>): Pen {
    pen.(current := to, points := pen.points + points)
  }

  /** One segment in absolute coordinates. */
  function Drawn(g: Geometry, pen: Pen, op: char, v: seq<real>): Outcome<Pen>
    requires |v| == Arity(op)
  {
    match op
    case 'M' =>
      var finished := Finished(pen);
      if finished.Err? then finished
      else
        var to := Point(v[0], v[1]);
        Ok(finished.value.(current := to, start := to, points := [to]))
    case 'L' => Ok(MovedTo(pen, Point(v[0], v[1]), [Point(v[0], v[1])]))
    case 'H' => Ok(MovedTo(pen, Point(v[0], pen.current.y), [Point(v[0], pen.current.y)]))
    case 'V' => Ok(MovedTo(pen, Point(pen.current.x, v[0]), [Point(pen.current.x, v[0])]))
    case 'C' =>
      var to := Point(v[4], v[5]);
      Ok(MovedTo(pen, to, Cubic(pen.current, Point(v[0], v[1]), Point(v[2], v[3]), to)))
    case 'A' =>
      if v[3] !in {0.0, 1.0} || v[4] !in {0.0, 1.0} then Err(BadArcFlag)
      else
        var to := Point(v[5], v[6]);
        Ok(MovedTo(pen, to, g.arc(pen.current, v[0], v[1], v[2], v[3] != 0.0, v[4] != 0.0, to)))
    case _ => Err(Unsupported)
  }

  /** The command that applies to further parameters without a new letter. */
  function Implicit(command: char): char {
    if command == 'm' then 'l' else if command == 'M' then 'L' else command
  }

  function Segment(g: Geometry, pen: Pen, command: char, rest: seq<Token>): Outcome<(Pen, seq<Token>)> {
    var op := Upper(command);
    if Arity(op) == 0 then Err(Unsupported)
    else
      var values := Values(rest, Arity(op));
      if values.None? then Err(MissingParameters)
      else
        var v := if IsLower(command) then ToAbsolute(op, values.value, pen.current) else values.value;
        match Drawn(g, pen, op, v)
        case Err(error) => Err(error)
        case Ok(drawn) => Ok((drawn.(command := Some(Implicit(command))), rest[Arity(op)..]))
  }

  function Closing(g: Geometry, pen: Pen): Outcome<Pen> {
    if pen.points == [] then Err(NoActiveSubpath)
    else
      var points := if g.same(pen.points[|pen.points| - 1], pen.start) then pen.points else pen.points + [pen.start];
      Ok(pen.(points := points, current := pen.start, command := None))
  }

  /** One round of the interpreter: a close, or one segment with its parameters. */
  function Round(g: Geometry, pen: Pen, rest: seq<Token>): (r: Outcome<(Pen, seq<Token>)>)
    requires rest != []
    ensures r.Ok? ==> |r.value.1| < |rest|
  {
    if rest[0].Cmd? && rest[0].letter in {'Z', 'z'} then
      match Closing(g, pen)
      case Err(error) => Err(error)
      case Ok(closed) => Ok((closed, rest[1..]))
    else if rest[0].Cmd? then Segment(g, pen, rest[0].letter, rest[1..])
    else if pen.command.None? then Err(NoCommand)
    else Segment(g, pen, pen.command.value, rest)
  }

  function Interpret(g: Geometry, pen: Pen, rest: seq<Token>): Outcome<seq<Polyline>>
    decreases |rest|
  {
    if rest == [] then
      match Finished(pen)
      case Err(error) => Err(error)
      case Ok(finished) => Ok(finished.subpaths)
    else
      match Round(g, pen, rest)
      case Err(error) => Err(error)
      case Ok((next, tail)) => Interpret(g, next, tail)
  }

  function Parsed(g: Geometry, tokens: seq<Token>): Outcome<seq<Polyline>> {
    if tokens == [] || tokens[0] !in {Cmd('M'), Cmd('m')} then Err(NoMoveTo) else Interpret(g, INITIAL, tokens)
  }

  // ----- the code -----

  method ReadValues(tokens: seq<Token>, index: nat, count: nat) returns (ok: bool, values: seq<real>, after: nat)
    requires index <= |tokens|
    ensures ok <==> Values(tokens[index..], count).Some?
    ensures ok ==> values == Values(tokens[index..], count).value && after == index + count <= |tokens|
  {
    ok, values, after := false, [], index;
    if index + count > |tokens| {
      return;
    }
    for offset := 0 to count
      invariant |values| == offset
      invariant forall i :: 0 <= i < offset ==> tokens[index..][i] == Num(values[i])
    {
      assert tokens[index..][offset] == tokens[index + offset];
      if tokens[index + offset].Cmd? {
        return;
      }
      values := values + [tokens[index + offset].value];
    }
    ok, after := true, index + count;
  }

  method FinishSubpath(points: seq<Point>, subpaths: seq<Polyline>) returns (ok: bool, done: seq<Polyline>)
    ensures forall pen: Pen :: pen.points == points && pen.subpaths == subpaths ==>
              && (ok <==> Finished(pen).Ok?)
              && (ok ==> Finished(pen).value == pen.(points := [], subpaths := done))
  {
    ok, done := true, subpaths;
    if points != [] {
      if |points| < 2 {
        return false, subpaths;
      }
      done := subpaths + [points];
    }
  }

  /** The whole parser: the source's loop over `index`, `command`, `current`, `start` and `points`. */
  method ParsePath(g: Geometry, tokens: seq<Token>) returns (r: Outcome<seq<Polyline>>)
    ensures r == Parsed(g, tokens)
  {
    if tokens == [] || tokens[0] !in {Cmd('M'), Cmd('m')} {
      return Err(NoMoveTo);
    }
    var index := 0;
    var pen := INITIAL;
    assert tokens[0..] == tokens;
    while index < |tokens|
      invariant index <= |tokens|
      invariant Parsed(g, tokens) == Interpret(g, pen, tokens[index..])
    {
      var next, after := ReadRound(g, pen, tokens, index);
      if next.Err? {
        return Err(next.error);
      }
      pen, index := next.value, after;
    }
    var ok, subpaths := FinishSubpath(pen.points, pen.subpaths);
    if !ok {
      return Err(EmptySubpath);
    }
    return Ok(subpaths);
  }

  /** The loop body: close the subpath, or draw a segment for the command given or still in force. */
  method ReadRound(g: Geometry, pen: Pen, tokens: seq<Token>, start: nat) returns (next: Outcome<Pen>, after: nat)
    requires start < |tokens|
    ensures match Round(g, pen, tokens[start..])
            case Err(error) => next == Err(error)
            case Ok((drawn, tail)) => next == Ok(drawn) && start < after <= |tokens| && tail == tokens[after..]
  {
    var index, command := start, pen.command;
    if tokens[index].Cmd? {
      command := Some(tokens[index].letter);
      index := index + 1;
      assert tokens[start..][1..] == tokens[index..];
      if command.value in {'Z', 'z'} {
        if pen.points == [] {
          return Err(NoActiveSubpath), start;
        }
        var points := pen.points;
        if !g.same(points[|points| - 1], pen.start) {
          points := points + [pen.start];
        }
        return Ok(pen.(points := points, current := pen.start, command := None)), index;
      }
    }
    if command.None? {
      return Err(NoCommand), start;
    }
    next, after := DrawSegment(g, pen, command.value, tokens, index);
    if next.Ok? {
      assert tokens[after..] == tokens[index..][after - index..];
    }
  }

  /** The branches on the command, with relative coordinates resolved in each. */
  method DrawSegment(g: Geometry, pen: Pen, command: char, tokens: seq<Token>, index: nat)
    returns (next: Outcome<Pen>, after: nat)
    requires index <= |tokens|
    ensures match Segment(g, pen, command, tokens[index..])
            case Err(error) => next == Err(error)
            case Ok((drawn, tail)) =>
              next == Ok(drawn) && index <= after <= |tokens| && tail == tokens[index..][after - index..]
  {
    var relative := IsLower(command);
    var op := Upper(command);
    after := index;
    var ok, v;
    if Arity(op) == 0 {
      return Err(Unsupported), index;
    }
    ok, v, after := ReadValues(tokens, index, Arity(op));
    if !ok {
      return Err(MissingParameters), index;
    }
    var x0, y0 := pen.current.x, pen.current.y;
    if op == 'M' {
      var x, y := v[0], v[1];
      if relative {
        x, y := x + x0, y + y0;
      }
      var fine, subpaths := FinishSubpath(pen.points, pen.subpaths);
      if !fine {
        return Err(EmptySubpath), index;
      }
      var to := Point(x, y);
      next := Ok(Pen(Some(if relative then 'l' else 'L'), to, to, [to], subpaths));
    } else if op == 'L' {
      var x, y := v[0], v[1];
      if relative {
        x, y := x + x0, y + y0;
      }
      next := Ok(MovedTo(pen, Point(x, y), [Point(x, y)]).(command := Some(command)));
    } else if op == 'H' {
      var x := v[0];
      if relative {
        x := x + x0;
      }
      next := Ok(MovedTo(pen, Point(x, y0), [Point(x, y0)]).(command := Some(command)));
    } else if op == 'V' {
      var y := v[0];
      if relative {
        y := y + y0;
      }
      next := Ok(MovedTo(pen, Point(x0, y), [Point(x0, y)]).(command := Some(command)));
    } else {
      var drawn := DrawCurve(g, pen, op, v, relative);
      if drawn.Err? {
        return drawn, index;
      }
      next := Ok(drawn.value.(command := Some(command)));
    }
  }

  /** Cubic curves and arcs. */
  method DrawCurve(g: Geometry, pen: Pen, op: char, v: seq<real>, relative: bool) returns (next: Outcome<Pen>)
    requires op in {'C', 'A'} && |v| == Arity(op)
    ensures next == Drawn(g, pen, op, if relative then ToAbsolute(op, v, pen.current) else v)
  {
    var x0, y0 := pen.current.x, pen.current.y;
    if op == 'C' {
      var px, py, qx, qy, x, y := v[0], v[1], v[2], v[3], v[4], v[5];
      if relative {
        px, py, qx, qy, x, y := px + x0, py + y0, qx + x0, qy + y0, x + x0, y + y0;
      }
      var points := CubicPoints(pen.current, Point(px, py), Point(qx, qy), Point(x, y));
      next := Ok(MovedTo(pen, Point(x, y), points));
    } else {
      var x, y := v[5], v[6];
      if v[3] !in {0.0, 1.0} || v[4] !in {0.0, 1.0} {
        return Err(BadArcFlag);
      }
      if relative {
        x, y := x + x0, y + y0;
      }
      var to := Point(x, y);
      next := Ok(MovedTo(pen, to, g.arc(pen.current, v[0], v[1], v[2], v[3] != 0.0, v[4] != 0.0, to)));
    }
  }

  // ----- rewriting a path -----

  /** Ways to write a path: with absolute commands, with lines for horizontal and vertical ones, or elsewhere. */
  datatype Rewriting = MakeAbsolute | MakeLines | MoveBy(offset: Point)

  function MovePoint(p: Point, d: Point): Point {
    Point(p.x + d.x, p.y + d.y)
  }

  function MovePoints(points: seq<Point>, d: Point): seq<Point> {
    seq(|points|, i requires 0 <= i < |points| => MovePoint(points[i], d))
  }

  function MovePolylines(lines: seq<Polyline>, d: Point): seq<Polyline> {
    seq(|lines|, i requires 0 <= i < |lines| => MovePoints(lines[i], d))
  }

  /** What parameter number `i` of an absolute command gains when the path moves by `d`. */
  function Gain(op: char, i: nat, d: Point): real {
    if op == 'H' then d.x
    else if op == 'V' then d.y
    else if op == 'A' then if i == 5 then d.x else if i == 6 then d.y else 0.0
    else if i % 2 == 0 then d.x else d.y
  }

  function MoveValues(op: char, v: seq<real>, d: Point): (w: seq<real>)
    ensures |w| == |v|
  {
    seq(|v|, i requires 0 <= i < |v| => v[i] + Gain(op, i, d))
  }

  function NewLetter(how: Rewriting, c: char): char {
    match how
    case MakeAbsolute => Upper(c)
    case MakeLines => if Upper(c) in {'H', 'V'} then 'L' else Upper(c)
    case MoveBy(_) => c
  }

  /** The parameters of `c` in absolute coordinates. */
  function AbsoluteValues(c: char, v: seq<real>, current: Point): (w: seq<real>)
    requires |v| == Arity(Upper(c))
    ensures |w| == |v|
  {
    if IsLower(c) then ToAbsolute(Upper(c), v, current) else v
  }

  function NewValues(how: Rewriting, c: char, v: seq<real>, current: Point): (w: seq<real>)
    requires |v| == Arity(Upper(c)) && Arity(Upper(c)) > 0
    ensures |w| == Arity(Upper(NewLetter(how, c)))
  {
    match how
    case MakeAbsolute => UpperFacts(c); AbsoluteValues(c, v, current)
    case MakeLines =>
      UpperFacts(c);
      var w := AbsoluteValues(c, v, current);
      if Upper(c) == 'H' then [w[0], current.y] else if Upper(c) == 'V' then [current.x, w[0]] else w
    case MoveBy(d) => if IsLower(c) then v else MoveValues(c, v, d)
  }

  function NewPen(how: Rewriting, pen: Pen): Pen {
    var command := if pen.command.Some? then Some(NewLetter(how, pen.command.value)) else None;
    match how
    case MoveBy(d) =>
      Pen(command, MovePoint(pen.current, d), MovePoint(pen.start, d), MovePoints(pen.points, d),
          MovePolylines(pen.subpaths, d))
    case _ => pen.(command := command)
  }

  function NewOutcome(how: Rewriting, r: Outcome<seq<Polyline>>): Outcome<seq<Polyline>> {
    if how.MoveBy? && r.Ok? then Ok(MovePolylines(r.value, how.offset)) else r
  }

  /** Moving a path needs arcs and coinciding points that move along. */
  ghost predicate Fits(how: Rewriting, g: Geometry) {
    how.MoveBy? ==>
      && (forall p, q :: g.same(MovePoint(p, how.offset), MovePoint(q, how.offset)) == g.same(p, q))
      && (forall p, rx, ry, turn, large, sweep, q ::
            g.arc(MovePoint(p, how.offset), rx, ry, turn, large, sweep, MovePoint(q, how.offset)) ==
            MovePoints(g.arc(p, rx, ry, turn, large, sweep, q), how.offset))
  }

  /** The parameters of one segment, rewritten. */
  function Rewritten(how: Rewriting, command: char, rest: seq<Token>, current: Point): seq<Token>
    requires Arity(Upper(command)) > 0 && Values(rest, Arity(Upper(command))).Some?
  {
    Numbers(NewValues(how, command, Values(rest, Arity(Upper(command))).value, current))
  }

  /** The path `rest`, read from `pen`, written anew up to where it goes wrong, if it does. */
  function Rewrite(how: Rewriting, g: Geometry, pen: Pen, rest: seq<Token>): seq<Token>
    decreases |rest|
  {
    if rest == [] then []
    else
      var round := Round(g, pen, rest);
      if round.Err? then rest
      else
        Head(how, g, pen, rest) + Rewrite(how, g, round.value.0, round.value.1)
  }

  lemma {:induction false} ValuesOfNumbers(values: seq<real>, tail: seq<Token>)
    ensures Values(Numbers(values) + tail, |values|) == Some(values)
    ensures (Numbers(values) + tail)[|values|..] == tail
  {
    var tokens := Numbers(values) + tail;
    assert forall i :: 0 <= i < |values| ==> tokens[i] == Num(values[i]);
    assert Values(tokens, |values|).value == values;
  }

  lemma {:induction false} UpperFacts(c: char)
    ensures !IsLower(Upper(c)) && Upper(Upper(c)) == Upper(c)
    ensures Upper(c) in {'Z', 'z'} ==> c in {'Z', 'z'}
  {}

  lemma {:induction false} LetterFacts(how: Rewriting, c: char)
    ensures NewLetter(how, c) in {'Z', 'z'} <==> c in {'Z', 'z'}
    ensures Arity(Upper(c)) > 0 ==> Arity(Upper(NewLetter(how, c))) > 0
    ensures Arity(Upper(c)) > 0 ==> NewLetter(how, Implicit(c)) == Implicit(NewLetter(how, c))
  {
    UpperFacts(c);
  }

  // ----- one segment -----

  /** The same drawing, the letter in force aside, or the same fault. */
  predicate SameDrawing(how: Rewriting, a: Outcome<Pen>, b: Outcome<Pen>) {
    match (a, b)
    case (Ok(pen), Ok(pen')) => pen' == NewPen(how, pen).(command := pen'.command)
    case (Err(fault), Err(fault')) => fault' == fault
    case _ => false
  }

  lemma {:induction false} DrawnAnew(how: Rewriting, g: Geometry, pen: Pen, op: char, v: seq<real>)
    requires !how.MoveBy? && |v| == Arity(op)
    ensures SameDrawing(how, Drawn(g, pen, op, v), Drawn(g, NewPen(how, pen), op, v))
  {}

  /** A horizontal or vertical segment is the line to the same height or side. */
  lemma {:induction false} DrawnAsLine(g: Geometry, pen: Pen, z: real)
    ensures SameDrawing(MakeLines, Drawn(g, pen, 'H', [z]), Drawn(g, NewPen(MakeLines, pen), 'L', [z, pen.current.y]))
    ensures SameDrawing(MakeLines, Drawn(g, pen, 'V', [z]), Drawn(g, NewPen(MakeLines, pen), 'L', [pen.current.x, z]))
  {}

  lemma {:induction false} MovePointsAppend(a: seq<Point>, b: seq<Point>, d: Point)
    ensures MovePoints(a + b, d) == MovePoints(a, d) + MovePoints(b, d)
  {}

  lemma {:induction false} MovedToMoved(pen: Pen, to: Point, points: seq<Point>, d: Point)
    ensures var how := MoveBy(d);
            MovedTo(NewPen(how, pen), MovePoint(to, d), MovePoints(points, d)) == NewPen(how, MovedTo(pen, to, points))
  {
    MovePointsAppend(pen.points, points, d);
  }

  lemma {:induction false} FinishedMoved(pen: Pen, d: Point)
    ensures SameDrawing(MoveBy(d), Finished(pen), Finished(NewPen(MoveBy(d), pen)))
  {
    if |pen.points| >= 2 {
      assert MovePolylines(pen.subpaths + [pen.points], d) ==
          MovePolylines(pen.subpaths, d) + [MovePoints(pen.points, d)];
    }
  }

  lemma {:induction false} OnePoint(p: Point, d: Point)
    ensures MovePoints([p], d) == [MovePoint(p, d)]
  {}

  /** Straight commands with moved parameters, from a moved pen, draw what they drew, moved. */
  lemma {:induction false} StraightMoved(g: Geometry, pen: Pen, op: char, v: seq<real>, d: Point)
    requires op in {'M', 'L', 'H', 'V'} && |v| == Arity(op)
    ensures SameDrawing(MoveBy(d), Drawn(g, pen, op, v), Drawn(g, NewPen(MoveBy(d), pen), op, MoveValues(op, v, d)))
  {
    var w := MoveValues(op, v, d);
    if op == 'M' {
      FinishedMoved(pen, d);
      OnePoint(Point(v[0], v[1]), d);
      assert Point(w[0], w[1]) == MovePoint(Point(v[0], v[1]), d);
    } else {
      var to := if op == 'L' then Point(v[0], v[1])
                else if op == 'H' then Point(v[0], pen.current.y) else Point(pen.current.x, v[0]);
      MovedToMoved(pen, to, [to], d);
      OnePoint(to, d);
    }
  }

  lemma {:induction false} CurveMoved(g: Geometry, pen: Pen, v: seq<real>, d: Point)
    requires |v| == 6
    ensures SameDrawing(MoveBy(d), Drawn(g, pen, 'C', v), Drawn(g, NewPen(MoveBy(d), pen), 'C', MoveValues('C', v, d)))
  {
    var p, q, to := Point(v[0], v[1]), Point(v[2], v[3]), Point(v[4], v[5]);
    var w := MoveValues('C', v, d);
    assert Point(w[0], w[1]) == MovePoint(p, d) && Point(w[2], w[3]) == MovePoint(q, d);
    assert Point(w[4], w[5]) == MovePoint(to, d);
    CubicMoves(pen.current, p, q, to, d);
    MovedToMoved(pen, to, Cubic(pen.current, p, q, to), d);
  }

  lemma {:induction false} ArcMoved(g: Geometry, pen: Pen, v: seq<real>, d: Point)
    requires Fits(MoveBy(d), g) && |v| == 7
    ensures SameDrawing(MoveBy(d), Drawn(g, pen, 'A', v), Drawn(g, NewPen(MoveBy(d), pen), 'A', MoveValues('A', v, d)))
  {
    var to, w := Point(v[5], v[6]), MoveValues('A', v, d);
    assert w[0] == v[0] && w[1] == v[1] && w[2] == v[2] && w[3] == v[3] && w[4] == v[4];
    assert Point(w[5], w[6]) == MovePoint(to, d);
    MovedToMoved(pen, to, g.arc(pen.current, v[0], v[1], v[2], v[3] != 0.0, v[4] != 0.0, to), d);
  }

  lemma {:induction false} DrawnMoved(g: Geometry, pen: Pen, op: char, v: seq<real>, d: Point)
    requires Fits(MoveBy(d), g) && Arity(op) > 0 && |v| == Arity(op)
    ensures SameDrawing(MoveBy(d), Drawn(g, pen, op, v), Drawn(g, NewPen(MoveBy(d), pen), op, MoveValues(op, v, d)))
  {
    if op == 'C' {
      CurveMoved(g, pen, v, d);
    } else if op == 'A' {
      ArcMoved(g, pen, v, d);
    } else {
      StraightMoved(g, pen, op, v, d);
    }
  }

  /** Relative parameters say the same from a moved point. */
  lemma {:induction false} RelativeMoves(op: char, v: seq<real>, current: Point, d: Point)
    requires Arity(op) > 0 && |v| == Arity(op)
    ensures ToAbsolute(op, v, MovePoint(current, d)) == MoveValues(op, ToAbsolute(op, v, current), d)
  {}

  /** The rewritten parameters, read from the rewritten pen, draw the same. */
  lemma {:induction false} DrawsTheSame(how: Rewriting, g: Geometry, pen: Pen, c: char, v: seq<real>)
    requires Fits(how, g) && Arity(Upper(c)) > 0 && |v| == Arity(Upper(c))
    ensures var c', pen' := NewLetter(how, c), NewPen(how, pen);
            SameDrawing(how, Drawn(g, pen, Upper(c), AbsoluteValues(c, v, pen.current)),
                        Drawn(g, pen', Upper(c'), AbsoluteValues(c', NewValues(how, c, v, pen.current), pen'.current)))
  {
    var op, w := Upper(c), AbsoluteValues(c, v, pen.current);
    UpperFacts(c);
    match how
    case MakeAbsolute => DrawnAnew(how, g, pen, op, w);
    case MakeLines =>
      if op in {'H', 'V'} {
        assert w == [w[0]];
        DrawnAsLine(g, pen, w[0]);
      } else {
        DrawnAnew(how, g, pen, op, w);
      }
    case MoveBy(d) =>
      DrawnMoved(g, pen, op, w, d);
      RelativeMoves(op, v, pen.current, d);
  }

  /** One segment: the rewritten tokens are consumed to the same effect. */
  lemma {:induction false} SegmentAnew(how: Rewriting, g: Geometry, pen: Pen, command: char, rest: seq<Token>,
                                       tail: seq<Token>)
    requires Fits(how, g) && Segment(g, pen, command, rest).Ok?
    ensures var (next, _) := Segment(g, pen, command, rest).value;
            Segment(g, NewPen(how, pen), NewLetter(how, command), Rewritten(how, command, rest, pen.current) + tail) ==
            Ok((NewPen(how, next), tail))
  {
    var v := Values(rest, Arity(Upper(command))).value;
    LetterFacts(how, command);
    ValuesOfNumbers(NewValues(how, command, v, pen.current), tail);
    DrawsTheSame(how, g, pen, command, v);
  }

  // ----- one round -----

  ghost predicate SameRound(how: Rewriting, g: Geometry, pen: Pen, rest: seq<Token>)
    requires rest != [] && Round(g, pen, rest).Ok?
  {
    var (next, tail) := Round(g, pen, rest).value;
    var rewritten := Rewrite(how, g, pen, rest);
    rewritten != []
    && Round(g, NewPen(how, pen), rewritten) == Ok((NewPen(how, next), Rewrite(how, g, next, tail)))
  }

  lemma {:induction false} ClosingAnew(how: Rewriting, g: Geometry, pen: Pen)
    requires Fits(how, g)
    ensures SameDrawing(how, Closing(g, pen), Closing(g, NewPen(how, pen)))
    ensures Closing(g, NewPen(how, pen)).Ok? ==> Closing(g, NewPen(how, pen)).value.command.None?
  {
    if how.MoveBy? && pen.points != [] {
      MovePointsAppend(pen.points, [pen.start], how.offset);
      OnePoint(pen.start, how.offset);
    }
  }

  lemma {:induction false} CloseAnew(how: Rewriting, g: Geometry, pen: Pen, rest: seq<Token>)
    requires Fits(how, g)
    requires rest != [] && Round(g, pen, rest).Ok? && rest[0].Cmd? && rest[0].letter in {'Z', 'z'}
    ensures SameRound(how, g, pen, rest)
  {
    var (next, tail) := Round(g, pen, rest).value;
    var rewritten := [Cmd(NewLetter(how, rest[0].letter))] + Rewrite(how, g, next, tail);
    assert Rewrite(how, g, pen, rest) == rewritten;
    assert rewritten[1..] == Rewrite(how, g, next, tail);
    LetterFacts(how, rest[0].letter);
    ClosingAnew(how, g, pen);
  }

  lemma {:induction false} LetterAnew(how: Rewriting, g: Geometry, pen: Pen, rest: seq<Token>)
    requires Fits(how, g)
    requires rest != [] && Round(g, pen, rest).Ok? && rest[0].Cmd? && rest[0].letter !in {'Z', 'z'}
    ensures SameRound(how, g, pen, rest)
  {
    var c := rest[0].letter;
    var (next, tail) := Round(g, pen, rest).value;
    var more := Rewrite(how, g, next, tail);
    var numbers := Rewritten(how, c, rest[1..], pen.current) + more;
    LetterHead(how, g, pen, rest, more);
    SegmentAnew(how, g, pen, c, rest[1..], more);
    LetterFacts(how, c);
    LetterRound(g, NewPen(how, pen), NewLetter(how, c), numbers);
  }

  lemma {:induction false} LetterHead(how: Rewriting, g: Geometry, pen: Pen, rest: seq<Token>, more: seq<Token>)
    requires rest != [] && Round(g, pen, rest).Ok? && rest[0].Cmd? && rest[0].letter !in {'Z', 'z'}
    ensures var c := rest[0].letter;
            Head(how, g, pen, rest) + more ==
            [Cmd(NewLetter(how, c))] + (Rewritten(how, c, rest[1..], pen.current) + more)
  {}

  lemma {:induction false} LetterRound(g: Geometry, pen: Pen, c: char, numbers: seq<Token>)
    requires c !in {'Z', 'z'}
    ensures Round(g, pen, [Cmd(c)] + numbers) == Segment(g, pen, c, numbers)
  {
    assert ([Cmd(c)] + numbers)[1..] == numbers;
  }

  lemma {:induction false} ImplicitAnew(how: Rewriting, g: Geometry, pen: Pen, rest: seq<Token>)
    requires Fits(how, g) && rest != [] && Round(g, pen, rest).Ok? && rest[0].Num?
    ensures SameRound(how, g, pen, rest)
  {
    var c := pen.command.value;
    var (next, tail) := Round(g, pen, rest).value;
    var more := Rewrite(how, g, next, tail);
    var numbers := Rewritten(how, c, rest, pen.current) + more;
    assert Rewrite(how, g, pen, rest) == numbers;
    LetterFacts(how, c);
    SegmentAnew(how, g, pen, c, rest, more);
    assert numbers[0].Num?;
  }

  /** One round of both paths. */
  lemma {:induction false} RoundAnew(how: Rewriting, g: Geometry, pen: Pen, rest: seq<Token>)
    requires Fits(how, g) && rest != [] && Round(g, pen, rest).Ok?
    ensures SameRound(how, g, pen, rest)
  {
    if rest[0].Num? {
      ImplicitAnew(how, g, pen, rest);
    } else if rest[0].letter in {'Z', 'z'} {
      CloseAnew(how, g, pen, rest);
    } else {
      LetterAnew(how, g, pen, rest);
    }
  }

  /** Where the path goes wrong, the rewritten one goes wrong in the same way. */
  lemma {:induction false} FaultAnew(how: Rewriting, g: Geometry, pen: Pen, rest: seq<Token>)
    requires Fits(how, g) && rest != [] && Round(g, pen, rest).Err?
    ensures Round(g, NewPen(how, pen), rest) == Round(g, pen, rest)
  {
    if rest[0].Num? {
      if pen.command.Some? {
        ImplicitFault(how, g, pen, pen.command.value, rest);
      }
    } else if rest[0].letter in {'Z', 'z'} {
      ClosingAnew(how, g, pen);
    } else {
      SegmentFault(how, g, pen, rest[0].letter, rest[0].letter, rest[1..]);
    }
  }

  lemma {:induction false} ImplicitFault(how: Rewriting, g: Geometry, pen: Pen, command: char, rest: seq<Token>)
    requires rest != [] && rest[0].Num? && Segment(g, pen, command, rest).Err?
    ensures Segment(g, NewPen(how, pen), NewLetter(how, command), rest) == Segment(g, pen, command, rest)
  {
    UpperFacts(command);
    if Upper(command) in {'H', 'V'} {
      StraightNeverFails(g, pen, command, rest);
    } else {
      SegmentFault(how, g, pen, command, NewLetter(how, command), rest);
    }
  }

  /** A horizontal or vertical line with its one parameter cannot go wrong. */
  lemma {:induction false} StraightNeverFails(g: Geometry, pen: Pen, command: char, rest: seq<Token>)
    requires rest != [] && rest[0].Num? && Upper(command) in {'H', 'V'}
    ensures Segment(g, pen, command, rest).Ok?
  {
    assert Values(rest, 1).Some?;
  }

  /** A fault of a segment does not depend on where the pen is. */
  lemma {:induction false} SegmentFault(how: Rewriting, g: Geometry, pen: Pen, command: char, command': char,
                                        rest: seq<Token>)
    requires Upper(command) == Upper(command') && Segment(g, pen, command, rest).Err?
    ensures Segment(g, NewPen(how, pen), command', rest) == Segment(g, pen, command, rest)
  {
    var op := Upper(command);
    if Arity(op) > 0 && Values(rest, Arity(op)).Some? {
      var v := Values(rest, Arity(op)).value;
      DrawingFault(how, g, pen, op, AbsoluteValues(command, v, pen.current),
                   AbsoluteValues(command', v, NewPen(how, pen).current));
    }
  }

  lemma {:induction false} DrawingFault(how: Rewriting, g: Geometry, pen: Pen, op: char, v: seq<real>, w: seq<real>)
    requires Arity(op) > 0 && |v| == |w| == Arity(op) && Drawn(g, pen, op, v).Err?
    requires op == 'A' ==> w[3] == v[3] && w[4] == v[4]
    ensures Drawn(g, NewPen(how, pen), op, w) == Drawn(g, pen, op, v)
  {}

  // ----- whole paths -----

  lemma {:induction false} EndAnew(how: Rewriting, g: Geometry, pen: Pen)
    ensures Interpret(g, NewPen(how, pen), []) == NewOutcome(how, Interpret(g, pen, []))
  {
    if how.MoveBy? {
      FinishedMoved(pen, how.offset);
    }
  }

  /** However a path is written anew, it draws the same, or goes wrong in the same way. */
  lemma {:induction false} InterpretAnew(how: Rewriting, g: Geometry, pen: Pen, rest: seq<Token>)
    requires Fits(how, g)
    ensures Interpret(g, NewPen(how, pen), Rewrite(how, g, pen, rest)) == NewOutcome(how, Interpret(g, pen, rest))
    decreases |rest|
  {
    if rest == [] {
      EndAnew(how, g, pen);
    } else if Round(g, pen, rest).Err? {
      FaultAnew(how, g, pen, rest);
    } else {
      RoundAnew(how, g, pen, rest);
      var (next, tail) := Round(g, pen, rest).value;
      InterpretAnew(how, g, next, tail);
    }
  }

  /** Only these letters. */
  ghost predicate Letters(tokens: seq<Token>, allowed: set<char>) {
    forall t :: t in tokens && t.Cmd? ==> t.letter in allowed
  }

  const ABSOLUTE: set<char> := {'M', 'L', 'H', 'V', 'C', 'A', 'Z'}

  function Allowed(how: Rewriting): set<char> {
    if how.MakeLines? then ABSOLUTE - {'H', 'V'} else ABSOLUTE
  }

  lemma {:induction false} LettersAppend(a: seq<Token>, b: seq<Token>, allowed: set<char>)
    requires Letters(a, allowed) && Letters(b, allowed)
    ensures Letters(a + b, allowed)
  {}

  lemma {:induction false} NumbersAreNoLetters(v: seq<real>, allowed: set<char>)
    ensures Letters(Numbers(v), allowed)
  {}

  lemma {:induction false} NewLetterAllowed(how: Rewriting, c: char)
    requires !how.MoveBy? && (c in {'Z', 'z'} || Arity(Upper(c)) > 0)
    ensures NewLetter(how, c) in Allowed(how) && Letters([Cmd(NewLetter(how, c))], Allowed(how))
  {
    UpperFacts(c);
  }

  /** What one round is rewritten to. */
  function Head(how: Rewriting, g: Geometry, pen: Pen, rest: seq<Token>): seq<Token>
    requires rest != [] && Round(g, pen, rest).Ok?
  {
    if rest[0].Num? then Rewritten(how, pen.command.value, rest, pen.current)
    else if rest[0].letter in {'Z', 'z'} then [Cmd(NewLetter(how, rest[0].letter))]
    else [Cmd(NewLetter(how, rest[0].letter))] + Rewritten(how, rest[0].letter, rest[1..], pen.current)
  }

  lemma {:induction false} HeadLetters(how: Rewriting, g: Geometry, pen: Pen, rest: seq<Token>)
    requires !how.MoveBy? && rest != [] && Round(g, pen, rest).Ok?
    ensures Letters(Head(how, g, pen, rest), Allowed(how))
  {
    if rest[0].Num? {
      var c := pen.command.value;
      NumbersAreNoLetters(NewValues(how, c, Values(rest, Arity(Upper(c))).value, pen.current), Allowed(how));
    } else {
      var c := rest[0].letter;
      NewLetterAllowed(how, c);
      if c !in {'Z', 'z'} {
        var v := Values(rest[1..], Arity(Upper(c))).value;
        NumbersAreNoLetters(NewValues(how, c, v, pen.current), Allowed(how));
        LettersAppend([Cmd(NewLetter(how, c))], Rewritten(how, c, rest[1..], pen.current), Allowed(how));
      }
    }
  }

  lemma {:induction false} RewrittenLetters(how: Rewriting, g: Geometry, pen: Pen, rest: seq<Token>)
    requires !how.MoveBy? && Interpret(g, pen, rest).Ok?
    ensures Letters(Rewrite(how, g, pen, rest), Allowed(how))
    decreases |rest|
  {
    if rest != [] {
      var (next, tail) := Round(g, pen, rest).value;
      RewrittenLetters(how, g, next, tail);
      HeadLetters(how, g, pen, rest);
      LettersAppend(Head(how, g, pen, rest), Rewrite(how, g, next, tail), Allowed(how));
    }
  }

  lemma {:induction false} RewrittenStart(how: Rewriting, g: Geometry, tokens: seq<Token>)
    requires tokens != []
    ensures var anew := Rewrite(how, g, INITIAL, tokens);
            anew != [] && (anew[0] in {Cmd('M'), Cmd('m')} <==> tokens[0] in {Cmd('M'), Cmd('m')})
  {
    if Round(g, INITIAL, tokens).Ok? {
      assert tokens[0].Cmd? && tokens[0].letter !in {'Z', 'z'};
      UpperFacts(tokens[0].letter);
      assert Rewrite(how, g, INITIAL, tokens)[0] == Cmd(NewLetter(how, tokens[0].letter));
    }
  }

  lemma {:induction false} ParsedAnew(how: Rewriting, g: Geometry, tokens: seq<Token>)
    requires !how.MoveBy?
    ensures Parsed(g, Rewrite(how, g, INITIAL, tokens)) == Parsed(g, tokens)
  {
    InterpretAnew(how, g, INITIAL, tokens);
    if tokens != [] {
      RewrittenStart(how, g, tokens);
    }
  }

  /** Rewriting any path to absolute commands keeps its outcome: the same polylines, point by point, or the same
      fault.  The rewriting of an accepted path has absolute commands only. */
  lemma {:induction false} AbsolutePathsDrawTheSame(g: Geometry, tokens: seq<Token>)
    ensures var absolute := Rewrite(MakeAbsolute, g, INITIAL, tokens);
            && Parsed(g, absolute) == Parsed(g, tokens)
            && (Parsed(g, tokens).Ok? ==> Letters(absolute, {'M', 'L', 'H', 'V', 'C', 'A', 'Z'}))
  {
    ParsedAnew(MakeAbsolute, g, tokens);
    if Parsed(g, tokens).Ok? {
      RewrittenLetters(MakeAbsolute, g, INITIAL, tokens);
    }
  }

  /** So does replacing every horizontal line by a line to the same height, and every vertical line by one to the same
      side: `H x` by `L x y0` and `V y` by `L x0 y`, where the pen is at `(x0, y0)`. */
  lemma {:induction false} LinesDrawTheSame(g: Geometry, tokens: seq<Token>)
    ensures var lines := Rewrite(MakeLines, g, INITIAL, tokens);
            && Parsed(g, lines) == Parsed(g, tokens)
            && (Parsed(g, tokens).Ok? ==> Letters(lines, {'M', 'L', 'C', 'A', 'Z'}))
  {
    ParsedAnew(MakeLines, g, tokens);
    if Parsed(g, tokens).Ok? {
      RewrittenLetters(MakeLines, g, INITIAL, tokens);
      assert Allowed(MakeLines) == {'M', 'L', 'C', 'A', 'Z'};
    }
  }

  lemma {:induction false} MoveToForgets(g: Geometry, pen: Pen, pen': Pen, rest: seq<Token>)
    requires rest != [] && rest[0] == Cmd('M') && pen.points == pen'.points && pen.subpaths == pen'.subpaths
    ensures Interpret(g, pen, rest) == Interpret(g, pen', rest)
  {
    assert Round(g, pen, rest) == Round(g, pen', rest);
  }

  /** Moving every absolute coordinate of a path by `d`, and leaving relative ones as they are, moves every polyline by
      `d`, for paths that begin with an absolute moveto. */
  lemma {:induction false} MovedPathsDrawMoved(g: Geometry, tokens: seq<Token>, d: Point)
    requires Fits(MoveBy(d), g) && tokens != [] && tokens[0] == Cmd('M')
    ensures Parsed(g, Rewrite(MoveBy(d), g, INITIAL, tokens)) == NewOutcome(MoveBy(d), Parsed(g, tokens))
  {
    var how := MoveBy(d);
    var anew := Rewrite(how, g, INITIAL, tokens);
    InterpretAnew(how, g, INITIAL, tokens);
    assert anew != [] && anew[0] == Cmd('M');
    MoveToForgets(g, INITIAL, NewPen(how, INITIAL), anew);
  }

  // ----- what each command draws -----

  function Mix(p: real, q: real, t: real): real {
    (1.0 - t) * p + t * q
  }

  function Between(p: Point, q: Point, t: real): Point {
    Point(Mix(p.x, q.x, t), Mix(p.y, q.y, t))
  }

  /** A point of a cubic curve by repeated division of its sides. */
  function Divided(a: Point, b: Point, c: Point, d: Point, t: real): Point {
    var ab, bc, cd := Between(a, b, t), Between(b, c, t), Between(c, d, t);
    Between(Between(ab, bc, t), Between(bc, cd, t), t)
  }

  /** Sample number `i` of eight. */
  function Sample(a: Point, b: Point, c: Point, d: Point, i: nat): Point {
    Divided(a, b, c, d, (i + 1) as real / 8.0)
  }

  lemma {:induction false} TwoMixes(u: real, t: real, a: real, b: real, c: real)
    ensures u * (u * a + t * b) + t * (u * b + t * c) == u * u * a + 2.0 * u * t * b + t * t * c
  {}

  lemma {:induction false} ThreeMixes(u: real, t: real, a: real, b: real, c: real, d: real)
    ensures u * (u * u * a + 2.0 * u * t * b + t * t * c) + t * (u * u * b + 2.0 * u * t * c + t * t * d) ==
            u * u * u * a + 3.0 * u * u * t * b + 3.0 * u * t * t * c + t * t * t * d
  {}

  /** One coordinate of `Divided`. */
  ghost function Halves(a: real, b: real, c: real, d: real, t: real): real {
    Mix(Mix(Mix(a, b, t), Mix(b, c, t), t), Mix(Mix(b, c, t), Mix(c, d, t), t), t)
  }

  lemma {:induction false} CubicByDivision(t: real, a: real, b: real, c: real, d: real)
    ensures Halves(a, b, c, d, t) == Cube(a, b, c, d, t)
  {
    TwoMixes(1.0 - t, t, a, b, c);
    TwoMixes(1.0 - t, t, b, c, d);
    ThreeMixes(1.0 - t, t, a, b, c, d);
  }

  lemma {:induction false} CubicIsDivided(a: Point, b: Point, c: Point, d: Point, t: real)
    ensures CubicAt(a, b, c, d, t) == Divided(a, b, c, d, t)
  {
    DividedParts(a, b, c, d, t);
    CubicByDivision(t, a.x, b.x, c.x, d.x);
    CubicByDivision(t, a.y, b.y, c.y, d.y);
  }

  lemma {:induction false} DividedParts(a: Point, b: Point, c: Point, d: Point, t: real)
    ensures Divided(a, b, c, d, t) == Point(Halves(a.x, b.x, c.x, d.x, t), Halves(a.y, b.y, c.y, d.y, t))
  {}

  lemma {:induction false} MixMoves(p: real, q: real, t: real, k: real)
    ensures Mix(p + k, q + k, t) == Mix(p, q, t) + k
  {}

  lemma {:induction false} BetweenMoves(p: Point, q: Point, t: real, k: Point)
    ensures Between(MovePoint(p, k), MovePoint(q, k), t) == MovePoint(Between(p, q, t), k)
  {
    MixMoves(p.x, q.x, t, k.x);
    MixMoves(p.y, q.y, t, k.y);
  }

  lemma {:induction false} DividedMoves(a: Point, b: Point, c: Point, d: Point, t: real, k: Point)
    ensures Divided(MovePoint(a, k), MovePoint(b, k), MovePoint(c, k), MovePoint(d, k), t) ==
            MovePoint(Divided(a, b, c, d, t), k)
  {
    var ab, bc, cd := Between(a, b, t), Between(b, c, t), Between(c, d, t);
    BetweenMoves(a, b, t, k);
    BetweenMoves(b, c, t, k);
    BetweenMoves(c, d, t, k);
    BetweenMoves(ab, bc, t, k);
    BetweenMoves(bc, cd, t, k);
    BetweenMoves(Between(ab, bc, t), Between(bc, cd, t), t, k);
  }

  lemma {:induction false} CubicMoves(a: Point, b: Point, c: Point, d: Point, k: Point)
    ensures Cubic(MovePoint(a, k), MovePoint(b, k), MovePoint(c, k), MovePoint(d, k)) ==
            MovePoints(Cubic(a, b, c, d), k)
  {
    var old', new' := Cubic(a, b, c, d), Cubic(MovePoint(a, k), MovePoint(b, k), MovePoint(c, k), MovePoint(d, k));
    forall i | 0 <= i < 8 ensures new'[i] == MovePoint(old'[i], k) {
      CurveSamples(a, b, c, d, i);
      CurveSamples(MovePoint(a, k), MovePoint(b, k), MovePoint(c, k), MovePoint(d, k), i);
      DividedMoves(a, b, c, d, (i + 1) as real / 8.0, k);
    }
  }

  /** The samples of a cubic curve: eight points, at equal steps, the last one its end. */
  lemma {:induction false} CurveSamples(a: Point, b: Point, c: Point, d: Point, i: nat)
    requires i < 8
    ensures |Cubic(a, b, c, d)| == 8 && Cubic(a, b, c, d)[7] == d
    ensures Cubic(a, b, c, d)[i] == Sample(a, b, c, d, i)
  {
    CubicIsDivided(a, b, c, d, (i + 1) as real / 8.0);
  }

  /** A line adds exactly the point it names, and leaves the pen there. */
  lemma {:induction false} LineGoesThere(g: Geometry, pen: Pen, x: real, y: real, rest: seq<Token>)
    ensures Round(g, pen, [Cmd('L'), Num(x), Num(y)] + rest) ==
            Ok((pen.(command := Some('L'), current := Point(x, y), points := pen.points + [Point(x, y)]), rest))
  {
    PairRead('L', x, y, rest);
    LetterRound(g, pen, 'L', [Num(x), Num(y)] + rest);
  }

  /** A moveto puts the pen there and begins a subpath there; the one before is kept, unless it drew nothing. */
  lemma {:induction false} MoveBegins(g: Geometry, pen: Pen, x: real, y: real, rest: seq<Token>)
    ensures var there := Point(x, y);
            Round(g, pen, [Cmd('M'), Num(x), Num(y)] + rest) ==
            if |pen.points| == 1 then Err(EmptySubpath)
            else Ok((Pen(Some('L'), there, there, [there],
                         if pen.points == [] then pen.subpaths else pen.subpaths + [pen.points]), rest))
  {
    PairRead('M', x, y, rest);
    LetterRound(g, pen, 'M', [Num(x), Num(y)] + rest);
  }

  lemma {:induction false} PairRead(c: char, x: real, y: real, rest: seq<Token>)
    ensures [Cmd(c), Num(x), Num(y)] + rest == [Cmd(c)] + ([Num(x), Num(y)] + rest)
    ensures Values([Num(x), Num(y)] + rest, 2) == Some([x, y]) && ([Num(x), Num(y)] + rest)[2..] == rest
  {
    assert Numbers([x, y]) == [Num(x), Num(y)];
    ValuesOfNumbers([x, y], rest);
  }

  /** A cubic curve adds its eight samples from where the pen was, and leaves the pen at its end. */
  lemma {:induction false} CurveGoesThere(g: Geometry, pen: Pen, v: seq<real>, rest: seq<Token>)
    requires |v| == 6
    ensures var p, q, to := Point(v[0], v[1]), Point(v[2], v[3]), Point(v[4], v[5]);
            match Round(g, pen, [Cmd('C')] + (Numbers(v) + rest))
            case Err(_) => false
            case Ok((next, tail)) =>
              && tail == rest && next.current == to && next.start == pen.start && next.subpaths == pen.subpaths
              && |next.points| == |pen.points| + 8 && next.points[..|pen.points|] == pen.points
              && forall i :: 0 <= i < 8 ==>
                   next.points[|pen.points| + i] == Sample(pen.current, p, q, to, i)
  {
    var p, q, to := Point(v[0], v[1]), Point(v[2], v[3]), Point(v[4], v[5]);
    ValuesOfNumbers(v, rest);
    LetterRound(g, pen, 'C', Numbers(v) + rest);
    forall i | 0 <= i < 8 ensures Cubic(pen.current, p, q, to)[i] == Sample(pen.current, p, q, to, i) {
      CurveSamples(pen.current, p, q, to, i);
    }
    CurveSamples(pen.current, p, q, to, 0);
  }

  /** An arc with proper flags adds its samples to the named point, and leaves the pen there. */
  lemma {:induction false} ArcGoesThere(g: Geometry, pen: Pen, v: seq<real>, rest: seq<Token>)
    requires |v| == 7
    ensures var to := Point(v[5], v[6]);
            Round(g, pen, [Cmd('A')] + (Numbers(v) + rest)) ==
            if (v[3] == 0.0 || v[3] == 1.0) && (v[4] == 0.0 || v[4] == 1.0) then
              Ok((pen.(command := Some('A'), current := to,
                       points := pen.points + g.arc(pen.current, v[0], v[1], v[2], v[3] == 1.0, v[4] == 1.0, to)),
                           rest))
            else Err(BadArcFlag)
  {
    ValuesOfNumbers(v, rest);
    LetterRound(g, pen, 'A', Numbers(v) + rest);
  }

  /** The pen remembers where its subpath began. */
  predicate StartsWhereItBegan(pen: Pen) {
    pen.points != [] ==> pen.points[0] == pen.start
  }

  lemma {:induction false} RoundsRememberStart(g: Geometry, pen: Pen, rest: seq<Token>)
    requires StartsWhereItBegan(pen) && rest != [] && Round(g, pen, rest).Ok?
    requires pen.points == [] ==> rest[0] in {Cmd('M'), Cmd('m')}
    ensures StartsWhereItBegan(Round(g, pen, rest).value.0) && Round(g, pen, rest).value.0.points != []
  {}

  /** Closing goes back to the first point of the subpath, adding it unless the path is there already; no command stays
      in force. */
  lemma {:induction false} CloseGoesBack(g: Geometry, pen: Pen, z: char, rest: seq<Token>)
    requires StartsWhereItBegan(pen) && pen.points != [] && z in {'Z', 'z'}
    ensures var first, last := pen.points[0], pen.points[|pen.points| - 1];
            Round(g, pen, [Cmd(z)] + rest) ==
            Ok((pen.(command := None, current := first,
                     points := if g.same(last, first) then pen.points else pen.points + [first]), rest))
  {
    assert ([Cmd(z)] + rest)[1..] == rest;
  }

  /** Without a subpath there is nothing to close, and without a command numbers mean nothing. */
  lemma {:induction false} NothingToGoOn(g: Geometry, pen: Pen, z: char, n: real, rest: seq<Token>)
    ensures pen.points == [] && z in {'Z', 'z'} ==> Round(g, pen, [Cmd(z)] + rest) == Err(NoActiveSubpath)
    ensures pen.command.None? ==> Round(g, pen, [Num(n)] + rest) == Err(NoCommand)
  {}

  /** A relative line counts from where the pen is; after closing that is the first point of the subpath. */
  lemma {:induction false} RelativeLine(g: Geometry, pen: Pen, x: real, y: real, rest: seq<Token>)
    ensures var there := Point(pen.current.x + x, pen.current.y + y);
            Round(g, pen, [Cmd('l'), Num(x), Num(y)] + rest) ==
            Ok((pen.(command := Some('l'), current := there, points := pen.points + [there]), rest))
  {
    PairRead('l', x, y, rest);
    LetterRound(g, pen, 'l', [Num(x), Num(y)] + rest);
  }

  lemma {:induction false} LineAfterClose(g: Geometry, pen: Pen, z: char, x: real, y: real, rest: seq<Token>)
    requires StartsWhereItBegan(pen) && pen.points != [] && z in {'Z', 'z'}
    ensures var first := pen.points[0];
            var closed := Round(g, pen, [Cmd(z)] + ([Cmd('l'), Num(x), Num(y)] + rest));
            && closed.Ok?
            && match Round(g, closed.value.0, closed.value.1)
               case Err(_) => false
               case Ok((next, tail)) => tail == rest && next.current == Point(first.x + x, first.y + y)
  {
    CloseGoesBack(g, pen, z, [Cmd('l'), Num(x), Num(y)] + rest);
    RelativeLine(g, Round(g, pen, [Cmd(z)] + ([Cmd('l'), Num(x), Num(y)] + rest)).value.0, x, y, rest);
  }

  lemma {:induction false} PolylinesHaveSegments(g: Geometry, pen: Pen, rest: seq<Token>)
    requires forall p :: p in pen.subpaths ==> |p| >= 2
    requires Interpret(g, pen, rest).Ok?
    ensures forall p :: p in Interpret(g, pen, rest).value ==> |p| >= 2
    decreases |rest|
  {
    if rest != [] {
      var (next, tail) := Round(g, pen, rest).value;
      RoundKeepsSegments(g, pen, rest);
      PolylinesHaveSegments(g, next, tail);
    }
  }

  lemma {:induction false} RoundKeepsSegments(g: Geometry, pen: Pen, rest: seq<Token>)
    requires rest != [] && Round(g, pen, rest).Ok?
    requires forall p :: p in pen.subpaths ==> |p| >= 2
    ensures forall p :: p in Round(g, pen, rest).value.0.subpaths ==> |p| >= 2
  {
    var next := Round(g, pen, rest).value.0;
    assert next.subpaths == pen.subpaths || next.subpaths == pen.subpaths + [pen.points];
  }

  /** Every polyline of an accepted path has at least two points. */
  lemma {:induction false} AcceptedPathsDraw(g: Geometry, tokens: seq<Token>)
    requires Parsed(g, tokens).Ok?
    ensures forall p :: p in Parsed(g, tokens).value ==> |p| >= 2
  {
    PolylinesHaveSegments(g, INITIAL, tokens);
  }
}
