/** Crossed wires, part 2 (d3t2): each segment also records how many steps the wire took
    before it, and the best crossing is the one the two wires reach in the fewest
    combined steps. Parsing, orientation and the crossing test are those of part 1. */
module WiresPartTwo {
  import opened Wrappers
  import P1 = WiresPartOne

  /** A segment from (x1, y1) to (x2, y2), reached after `cumulSteps` steps of its wire. */
  datatype Line = Line(x1: int, y1: int, x2: int, y2: int, cumulSteps: int)

  /** The segment without its step count. */
  function Plain(l: Line): P1.Line
  {
    P1.Line(l.x1, l.y1, l.x2, l.y2)
  }

  function PlainAll(lines: seq<Line>): (r: seq<P1.Line>)
    ensures |r| == |lines|
    ensures forall k :: 0 <= k < |lines| ==> r[k] == Plain(lines[k])
  {
    seq(|lines|, k requires 0 <= k < |lines| => Plain(lines[k]))
  }

  /** Steps the wire of `l` has taken when it reaches (x, y) on `l`. */
  function StepsTo(l: Line, x: int, y: int): int
  {
    l.cumulSteps + P1.Abs(x - l.x1) + P1.Abs(y - l.y1)
  }

  /** The crossing test of part 1, reporting the combined steps instead of the point: it
      reports a crossing exactly when part 1 does, and then the steps both wires take to
      reach the crossing point. */
  function IntersectsSteps(l1: Line, l2: Line): (r: (bool, int))
    ensures r.0 == P1.Intersects(Plain(l1), Plain(l2)).0
    ensures P1.IsVertical(Plain(l1)) == P1.IsVertical(Plain(l2)) ==> r == (false, 0)
    ensures !r.0 ==> r.1 == 0
    ensures r.0 ==> var c := P1.Intersects(Plain(l1), Plain(l2));
                    r.1 == StepsTo(l1, c.1, c.2) + StepsTo(l2, c.1, c.2)
  {
    var v1, v2 := P1.IsVertical(Plain(l1)), P1.IsVertical(Plain(l2));
    var (vLine, hLine) := if v1 && !v2 then (l1, l2) else if !v1 && v2 then (l2, l1) else (l1, l1);
    if v1 == v2 then (false, 0)
    else if (vLine.x1 >= hLine.x1 && vLine.x1 <= hLine.x2) || (vLine.x1 >= hLine.x2 && vLine.x1 <= hLine.x1) then
      if (hLine.y1 >= vLine.y1 && hLine.y1 <= vLine.y2) || (hLine.y1 >= vLine.y2 && hLine.y1 <= vLine.y1) then
        var stepsVLine := vLine.cumulSteps + P1.Abs(vLine.y1 - hLine.y1);
        var stepsHLine := hLine.cumulSteps + P1.Abs(hLine.x1 - vLine.x1);
        (true, stepsVLine + stepsHLine)
      else (false, 0)
    else (false, 0)
  }

  lemma IntersectsStepsSymmetric(l1: Line, l2: Line)
    ensures IntersectsSteps(l1, l2) == IntersectsSteps(l2, l1)
  {
  }

  /** The combined steps of the crossing of two segments. */
  function CrossingSteps(l1: Line, l2: Line): int
  {
    IntersectsSteps(l1, l2).1
  }

  /** l1 and l2 cross at a non-zero combined step count. */
  predicate CrossesAfterSteps(l1: Line, l2: Line)
  {
    IntersectsSteps(l1, l2).0 && CrossingSteps(l1, l2) != 0
  }

  /** The least non-zero combined step count over every pair of segments of the two wires,
      or NoCrossing when there is none below it. */
  method FindClosestIntersect(lineSet1: seq<Line>, lineSet2: seq<Line>) returns (bestSteps: int)
    ensures bestSteps != 0 && bestSteps <= P1.NoCrossing
    ensures forall i, j :: 0 <= i < |lineSet1| && 0 <= j < |lineSet2| && CrossesAfterSteps(lineSet1[i], lineSet2[j]) ==>
              bestSteps <= CrossingSteps(lineSet1[i], lineSet2[j])
    ensures bestSteps == P1.NoCrossing ||
              exists i, j :: 0 <= i < |lineSet1| && 0 <= j < |lineSet2| && CrossesAfterSteps(lineSet1[i], lineSet2[j]) &&
                bestSteps == CrossingSteps(lineSet1[i], lineSet2[j])
  {
    bestSteps := P1.NoCrossing;
    ghost var bi, bj := 0, 0;
    for i := 0 to |lineSet1|
      invariant bestSteps != 0 && bestSteps <= P1.NoCrossing
      invariant forall p, q :: 0 <= p < i && 0 <= q < |lineSet2| && CrossesAfterSteps(lineSet1[p], lineSet2[q]) ==>
                  bestSteps <= CrossingSteps(lineSet1[p], lineSet2[q])
      invariant bestSteps == P1.NoCrossing ||
                  (0 <= bi < i && 0 <= bj < |lineSet2| && CrossesAfterSteps(lineSet1[bi], lineSet2[bj]) &&
                   bestSteps == CrossingSteps(lineSet1[bi], lineSet2[bj]))
    {
      var l1 := lineSet1[i];
      for j := 0 to |lineSet2|
        invariant bestSteps != 0 && bestSteps <= P1.NoCrossing
        invariant forall p, q :: 0 <= p < i && 0 <= q < |lineSet2| && CrossesAfterSteps(lineSet1[p], lineSet2[q]) ==>
                    bestSteps <= CrossingSteps(lineSet1[p], lineSet2[q])
        invariant forall q :: 0 <= q < j && CrossesAfterSteps(l1, lineSet2[q]) ==>
                    bestSteps <= CrossingSteps(l1, lineSet2[q])
        invariant bestSteps == P1.NoCrossing ||
                    (0 <= bi <= i && 0 <= bj < |lineSet2| && CrossesAfterSteps(lineSet1[bi], lineSet2[bj]) &&
                     bestSteps == CrossingSteps(lineSet1[bi], lineSet2[bj]))
      {
        var l2 := lineSet2[j];
        var (intersects, steps) := IntersectsSteps(l1, l2);
        if intersects {
          if steps != 0 && steps < bestSteps {
            bestSteps := steps;
            bi, bj := i, j;
          }
        }
      }
    }
  }

  /** The number of steps a sequence of moves takes. */
  function TotalLength(moves: seq<P1.Move>): nat
  {
    if moves == [] then 0 else TotalLength(moves[..|moves| - 1]) + moves[|moves| - 1].length
  }

  /** Every segment of the wire records the total length of the moves before it. */
  ghost predicate CountsSteps(lines: seq<Line>, moves: seq<P1.Move>)
    requires |lines| <= |moves|
  {
    forall k :: 0 <= k < |lines| ==> lines[k].cumulSteps == TotalLength(moves[..k])
  }

  /** The segments drawn for `moves` from the origin: each starts where the one before it
      ends and carries the total length of the moves before it. */
  function Wire(moves: seq<P1.Move>): (lines: seq<Line>)
    ensures |lines| == |moves|
  {
    if moves == [] then []
    else
      var before := moves[..|moves| - 1];
      var start, end := P1.PathEnd(before), P1.PathEnd(moves);
      Wire(before) + [Line(start.0, start.1, end.0, end.1, TotalLength(before))]
  }

  /** One more move adds one segment, from where the wire ended to where the move leads. */
  lemma WireAppend(moves: seq<P1.Move>, m: P1.Move)
    ensures TotalLength(moves + [m]) == TotalLength(moves) + m.length
    ensures Wire(moves + [m]) == Wire(moves) + [Line(P1.PathEnd(moves).0, P1.PathEnd(moves).1,
                                                       P1.PathEnd(moves + [m]).0, P1.PathEnd(moves + [m]).1,
                                                       TotalLength(moves))]
  {
    assert (moves + [m])[..|moves|] == moves;
  }

  lemma PlainAllAppend(lines: seq<Line>, line: Line)
    ensures PlainAll(lines + [line]) == PlainAll(lines) + [Plain(line)]
  {
  }

  /** Without their step counts, the segments of part 2 are those of part 1. */
  lemma {:induction false} WireIsPath(moves: seq<P1.Move>)
    ensures PlainAll(Wire(moves)) == P1.Path(moves)
  {
    if moves != [] {
      var before := moves[..|moves| - 1];
      WireIsPath(before);
      var start, end := P1.PathEnd(before), P1.PathEnd(moves);
      PlainAllAppend(Wire(before), Line(start.0, start.1, end.0, end.1, TotalLength(before)));
    }
  }

  /** Every segment of the drawn wire carries the total length of the moves before it. */
  lemma {:induction false} WireCountsSteps(moves: seq<P1.Move>)
    ensures CountsSteps(Wire(moves), moves)
  {
    if moves != [] {
      var before, m := moves[..|moves| - 1], moves[|moves| - 1];
      assert before + [m] == moves;
      WireCountsSteps(before);
      WireAppend(before, m);
      StepsExtend(Wire(before), before, m, Wire(moves)[|before|]);
    }
  }

  /** What reading a wire's tokens yields: the error of the first bad token, or the wire
      its moves draw. */
  function ReadWire(tokens: seq<string>): Result<seq<Line>, P1.PathError>
  {
    match P1.ParseMoves(tokens)
    case Failure(e) => Failure(e)
    case Success(moves) => Success(Wire(moves))
  }

  /** A wire read without error traces the parsed moves from the origin, and each of its
      segments carries the steps taken before it. */
  lemma ReadWireTraces(tokens: seq<string>)
    ensures ReadWire(tokens).Failure? <==> P1.ParseMoves(tokens).Failure?
    ensures ReadWire(tokens).Failure? ==> ReadWire(tokens).error == P1.ParseMoves(tokens).error
    ensures ReadWire(tokens).Success? ==>
              && P1.Traces(PlainAll(ReadWire(tokens).value), P1.ParseMoves(tokens).value)
              && CountsSteps(ReadWire(tokens).value, P1.ParseMoves(tokens).value)
  {
    if P1.ParseMoves(tokens).Success? {
      var moves := P1.ParseMoves(tokens).value;
      WireIsPath(moves);
      P1.PathTraces(moves);
      WireCountsSteps(moves);
    }
  }

  /** `readInputLine` with step accumulation: the segments of one wire, each carrying the
      steps taken before it, or the error of the first bad token. */
  method ReadInputLine(inputLine: string) returns (r: Result<seq<Line>, P1.PathError>)
    ensures r == ReadWire(P1.Split(inputLine))
  {
    var tokens := P1.Split(inputLine);
    var lineStartX, lineStartY, steps := 0, 0, 0;
    var lines: seq<Line> := [];
    ghost var moves: seq<P1.Move> := [];
    for k := 0 to |tokens|
      invariant P1.ParseMoves(tokens[..k]) == Success(moves)
      invariant lines == Wire(moves)
      invariant (lineStartX, lineStartY) == P1.PathEnd(moves)
      invariant steps == TotalLength(moves)
    {
      var move := P1.ParseMove(tokens[k]);
      if move.Failure? {
        P1.ParseMovesStopAt(tokens, k);
        return Failure(move.error);
      }
      var (lineEndX, lineEndY) := P1.Advance(lineStartX, lineStartY, move.value);
      P1.ParseMovesExtend(tokens, k, moves, move.value);
      P1.PathAppend(moves, move.value);
      WireAppend(moves, move.value);
      assert Wire(moves + [move.value]) == lines + [Line(lineStartX, lineStartY, lineEndX, lineEndY, steps)];
      lines := lines + [Line(lineStartX, lineStartY, lineEndX, lineEndY, steps)];
      moves := moves + [move.value];
      steps := steps + move.value.length;
      lineStartX, lineStartY := lineEndX, lineEndY;
    }
    assert tokens[..|tokens|] == tokens;
    return Success(lines);
  }

  lemma StepsExtend(lines: seq<Line>, moves: seq<P1.Move>, m: P1.Move, line: Line)
    requires |lines| == |moves| && CountsSteps(lines, moves)
    requires line.cumulSteps == TotalLength(moves)
    ensures TotalLength(moves + [m]) == TotalLength(moves) + m.length
    ensures CountsSteps(lines + [line], moves + [m])
  {
    var moves' := moves + [m];
    assert moves'[..|moves'| - 1] == moves;
    forall k | 0 <= k < |lines| + 1
      ensures (lines + [line])[k].cumulSteps == TotalLength(moves'[..k])
    {
      assert moves'[..k] == moves[..k];
    }
  }
}
