/** Crossed wires, part 1 (d3t1): a wire path such as "R8,U5,L5,D3" becomes a chain of
    axis-aligned segments from the origin; perpendicular segments of two wires are checked
    for crossings, and the closest non-zero crossing by Manhattan distance is reported. */
module WiresPartOne {
  import opened Wrappers

  /** A segment from (x1, y1) to (x2, y2). */
  datatype Line = Line(x1: int, y1: int, x2: int, y2: int)

  datatype Direction = Up | Right | Down | Left

  /** One comma-separated token of a path: a direction and a length. */
  datatype Move = Move(direction: Direction, length: nat)

  /** Why a path was rejected (a panic in the Go code). */
  datatype PathError =
    | MalformedLength(token: string)      // no direction letter, or no decimal length after it
    | InvalidDirection(letter: char)      // a letter other than U, R, D, L

  /** Integer absolute value; stands for `math.Abs` on the float conversions of d3t1 and
      for the integer `Abs` of d3t2. */
  function Abs(x: int): (r: int)
    ensures r >= 0
    ensures r == x || r == -x
  {
    if x < 0 then -x else x
  }

  function Min(a: int, b: int): int { if a <= b then a else b }
  function Max(a: int, b: int): int { if a <= b then b else a }

  /** `v` lies between `a` and `b`, in either order. */
  predicate Within(v: int, a: int, b: int)
  {
    Min(a, b) <= v <= Max(a, b)
  }

  /** (x, y) lies in the bounding box of the segment. For an axis-aligned segment this
      means it lies on the segment. */
  predicate InBox(l: Line, x: int, y: int)
  {
    Within(x, l.x1, l.x2) && Within(y, l.y1, l.y2)
  }

  predicate AxisAligned(l: Line)
  {
    l.x1 == l.x2 || l.y1 == l.y2
  }

  /** A segment is vertical exactly when its two x coordinates agree. */
  predicate IsVertical(l: Line): (v: bool)
    ensures v <==> l.x1 == l.x2
  {
    l.x1 - l.x2 == 0
  }

  /** The crossing test. A vertical and a non-vertical segment cross when the vertical's x
      lies in the other's x range and the other's y1 lies in the vertical's y range; the
      crossing point is then (vertical x, other y1). Segments of the same orientation
      never cross, whether they overlap or not. The roles are assigned by orientation,
      not by argument position. */
  function Intersects(l1: Line, l2: Line): (r: (bool, int, int))
    ensures !r.0 ==> r.1 == 0 && r.2 == 0
    ensures IsVertical(l1) == IsVertical(l2) ==> !r.0
    ensures r.0 ==> InBox(l1, r.1, r.2) && InBox(l2, r.1, r.2)
    ensures r.0 && IsVertical(l1) ==> r.1 == l1.x1 && r.2 == l2.y1
    ensures r.0 && IsVertical(l2) ==> r.1 == l2.x1 && r.2 == l1.y1
  {
    var (vLine, hLine) :=
      if IsVertical(l1) && !IsVertical(l2) then (l1, l2)
      else if !IsVertical(l1) && IsVertical(l2) then (l2, l1)
      else (l1, l1);
    if IsVertical(l1) == IsVertical(l2) then (false, 0, 0)
    else if (vLine.x1 >= hLine.x1 && vLine.x1 <= hLine.x2) || (vLine.x1 >= hLine.x2 && vLine.x1 <= hLine.x1) then
      if (hLine.y1 >= vLine.y1 && hLine.y1 <= vLine.y2) || (hLine.y1 >= vLine.y2 && hLine.y1 <= vLine.y1) then
        (true, vLine.x1, hLine.y1)
      else (false, 0, 0)
    else (false, 0, 0)
  }

  lemma IntersectsSymmetric(l1: Line, l2: Line)
    ensures Intersects(l1, l2) == Intersects(l2, l1)
  {
  }

  /** For axis-aligned segments of different orientation, every point the two segments
      share is reported: the test misses no crossing. */
  lemma IntersectsComplete(l1: Line, l2: Line, x: int, y: int)
    requires AxisAligned(l1) && AxisAligned(l2) && IsVertical(l1) != IsVertical(l2)
    requires InBox(l1, x, y) && InBox(l2, x, y)
    ensures Intersects(l1, l2) == (true, x, y)
  {
  }

  /** The value the closest-crossing scan starts from and returns when nothing crosses. */
  const NoCrossing := 100000000000

  function ManhattanDistance(x: int, y: int): (d: int)
    ensures d >= 0
    ensures d == 0 <==> x == 0 && y == 0
  {
    Abs(x) + Abs(y)
  }

  /** The Manhattan distance of the crossing of two segments. */
  function CrossingDistance(l1: Line, l2: Line): int
  {
    var c := Intersects(l1, l2);
    ManhattanDistance(c.1, c.2)
  }

  /** The segments l1 and l2 cross somewhere other than the origin. */
  predicate CrossesAwayFromOrigin(l1: Line, l2: Line)
  {
    Intersects(l1, l2).0 && CrossingDistance(l1, l2) != 0
  }

  /** The least non-zero crossing distance over every pair of segments of the two wires,
      or NoCrossing when there is none below it. */
  method FindClosestIntersect(lineSet1: seq<Line>, lineSet2: seq<Line>) returns (bestDist: int)
    ensures 0 < bestDist <= NoCrossing
    ensures forall i, j :: 0 <= i < |lineSet1| && 0 <= j < |lineSet2| && CrossesAwayFromOrigin(lineSet1[i], lineSet2[j]) ==>
              bestDist <= CrossingDistance(lineSet1[i], lineSet2[j])
    ensures bestDist == NoCrossing ||
              exists i, j :: 0 <= i < |lineSet1| && 0 <= j < |lineSet2| && CrossesAwayFromOrigin(lineSet1[i], lineSet2[j]) &&
                bestDist == CrossingDistance(lineSet1[i], lineSet2[j])
  {
    bestDist := NoCrossing;
    ghost var bi, bj := 0, 0;
    for i := 0 to |lineSet1|
      invariant 0 < bestDist <= NoCrossing
      invariant forall p, q :: 0 <= p < i && 0 <= q < |lineSet2| && CrossesAwayFromOrigin(lineSet1[p], lineSet2[q]) ==>
                  bestDist <= CrossingDistance(lineSet1[p], lineSet2[q])
      invariant bestDist == NoCrossing ||
                  (0 <= bi < i && 0 <= bj < |lineSet2| && CrossesAwayFromOrigin(lineSet1[bi], lineSet2[bj]) &&
                   bestDist == CrossingDistance(lineSet1[bi], lineSet2[bj]))
    {
      var l1 := lineSet1[i];
      for j := 0 to |lineSet2|
        invariant 0 < bestDist <= NoCrossing
        invariant forall p, q :: 0 <= p < i && 0 <= q < |lineSet2| && CrossesAwayFromOrigin(lineSet1[p], lineSet2[q]) ==>
                    bestDist <= CrossingDistance(lineSet1[p], lineSet2[q])
        invariant forall q :: 0 <= q < j && CrossesAwayFromOrigin(l1, lineSet2[q]) ==>
                    bestDist <= CrossingDistance(l1, lineSet2[q])
        invariant bestDist == NoCrossing ||
                    (0 <= bi <= i && 0 <= bj < |lineSet2| && CrossesAwayFromOrigin(lineSet1[bi], lineSet2[bj]) &&
                     bestDist == CrossingDistance(lineSet1[bi], lineSet2[bj]))
      {
        var l2 := lineSet2[j];
        var (intersects, x, y) := Intersects(l1, l2);
        if intersects {
          var dist := Abs(x) + Abs(y);
          if dist != 0 && dist < bestDist {
            bestDist := dist;
            bi, bj := i, j;
          }
        }
      }
    }
  }

  // ---------------------------------------------------------------------------
  // Reading a path

  /** The comma-separated tokens of a path, in order; a trailing comma or an empty input
      yields an empty last token, as the byte reader of the Go code does. */
  function Split(s: string): (tokens: seq<string>)
    ensures |tokens| >= 1
    ensures forall k :: 0 <= k < |tokens| ==> ',' !in tokens[k]
  {
    if s == [] then [""]
    else
      var rest := Split(s[1..]);
      if s[0] == ',' then [""] + rest
      else [[s[0]] + rest[0]] + rest[1..]
  }

  /** The tokens written back with commas between them. */
  function Join(tokens: seq<string>): string
    requires |tokens| >= 1
  {
    if |tokens| == 1 then tokens[0] else tokens[0] + "," + Join(tokens[1..])
  }

  lemma {:induction false} SplitJoin(s: string)
    ensures Join(Split(s)) == s
  {
    if s != [] {
      var rest := Split(s[1..]);
      SplitJoin(s[1..]);
      if s[0] == ',' {
        assert Split(s) == [""] + rest;
        assert Split(s)[1..] == rest;
      } else {
        var tokens := Split(s);
        assert tokens[1..] == rest[1..];
        if |rest| == 1 {
          assert Join(tokens) == [s[0]] + rest[0];
        } else {
          assert Join(rest) == rest[0] + "," + Join(rest[1..]);
          assert Join(tokens) == ([s[0]] + rest[0]) + "," + Join(rest[1..]);
        }
      }
    }
  }

  lemma {:induction false} JoinSplit(tokens: seq<string>)
    requires |tokens| >= 1
    requires forall k :: 0 <= k < |tokens| ==> ',' !in tokens[k]
    ensures Split(Join(tokens)) == tokens
    decreases |Join(tokens)|, |tokens|
  {
    var t := tokens[0];
    if t == [] {
      if |tokens| > 1 {
        assert Join(tokens) == [','] + Join(tokens[1..]);
        assert Join(tokens)[1..] == Join(tokens[1..]);
        JoinSplit(tokens[1..]);
      }
    } else {
      var shorter := [t[1..]] + tokens[1..];
      assert shorter[1..] == tokens[1..];
      assert forall k :: 0 <= k < |shorter| ==> ',' !in shorter[k] by {
        forall k | 0 <= k < |shorter| ensures ',' !in shorter[k] {
          if k == 0 {
            assert forall c :: c in t[1..] ==> c in t;
          } else {
            assert shorter[k] == tokens[k];
          }
        }
      }
      assert Join(tokens) == [t[0]] + Join(shorter) by {
        if |tokens| == 1 {
          assert t == [t[0]] + t[1..];
        } else {
          assert t == [t[0]] + t[1..];
          assert Join(tokens) == t + "," + Join(tokens[1..]);
          assert Join(shorter) == t[1..] + "," + Join(tokens[1..]);
        }
      }
      assert Join(tokens)[1..] == Join(shorter);
      assert t[0] != ',' by { assert t[0] in t; }
      JoinSplit(shorter);
      assert [t[0]] + t[1..] == t;
    }
  }

  predicate IsDigit(c: char)
  {
    '0' <= c <= '9'
  }

  predicate AllDigits(s: string)
  {
    forall k :: 0 <= k < |s| ==> IsDigit(s[k])
  }

  /** The value of a string of decimal digits, most significant first. */
  function DecimalValue(digits: string): nat
    requires AllDigits(digits)
  {
    if digits == [] then 0
    else 10 * DecimalValue(digits[..|digits| - 1]) + (digits[|digits| - 1] - '0') as nat
  }

  /** The shortest decimal spelling of n. */
  function Decimal(n: nat): (s: string)
    ensures |s| >= 1 && AllDigits(s)
  {
    var last := ['0' + (n % 10) as char];
    if n < 10 then last else Decimal(n / 10) + last
  }

  lemma {:induction false} DecimalRoundTrip(n: nat)
    ensures DecimalValue(Decimal(n)) == n
  {
    var s := Decimal(n);
    if n >= 10 {
      DecimalRoundTrip(n / 10);
      assert s[..|s| - 1] == Decimal(n / 10);
    }
  }

  function Letter(d: Direction): char
  {
    match d
    case Up => 'U'
    case Right => 'R'
    case Down => 'D'
    case Left => 'L'
  }

  /** Reads one token. As in the Go code, the length after the first character is read
      before the direction letter is looked at, so a token that is bad on both counts
      reports the length. */
  function ParseMove(token: string): (r: Result<Move, PathError>)
    ensures r.Success? <==> |token| >= 2 && AllDigits(token[1..]) && token[0] in "URDL"
    ensures r.Success? ==> Letter(r.value.direction) == token[0] && r.value.length == DecimalValue(token[1..])
    ensures !(|token| >= 2 && AllDigits(token[1..])) ==> r == Failure(MalformedLength(token))
    ensures |token| >= 2 && AllDigits(token[1..]) && token[0] !in "URDL" ==> r == Failure(InvalidDirection(token[0]))
  {
    if |token| < 2 || !AllDigits(token[1..]) then Failure(MalformedLength(token))
    else
      var length := DecimalValue(token[1..]);
      match token[0]
      case 'U' => Success(Move(Up, length))
      case 'R' => Success(Move(Right, length))
      case 'D' => Success(Move(Down, length))
      case 'L' => Success(Move(Left, length))
      case _ => Failure(InvalidDirection(token[0]))
  }

  /** The token that spells a move. */
  function Token(m: Move): string
  {
    [Letter(m.direction)] + Decimal(m.length)
  }

  lemma MoveRoundTrip(m: Move)
    ensures ParseMove(Token(m)) == Success(m)
  {
    var t := Token(m);
    assert t[1..] == Decimal(m.length);
    DecimalRoundTrip(m.length);
  }

  /** Reads every token; the first token that fails decides the error. */
  function ParseMoves(tokens: seq<string>): (r: Result<seq<Move>, PathError>)
    ensures r.Success? <==> forall k :: 0 <= k < |tokens| ==> ParseMove(tokens[k]).Success?
    ensures r.Success? ==> |r.value| == |tokens|
    ensures r.Success? ==> forall k :: 0 <= k < |tokens| ==> ParseMove(tokens[k]) == Success(r.value[k])
    ensures r.Failure? ==> exists k :: 0 <= k < |tokens| && ParseMove(tokens[k]) == Failure(r.error) &&
                                       (forall q :: 0 <= q < k ==> ParseMove(tokens[q]).Success?)
  {
    if tokens == [] then Success([])
    else
      match ParseMove(tokens[0])
      case Failure(e) => Failure(e)
      case Success(m) =>
        match ParseMoves(tokens[1..])
        case Failure(e) =>
          assert forall q :: 1 <= q < |tokens| ==> tokens[1..][q - 1] == tokens[q];
          Failure(e)
        case Success(ms) => Success([m] + ms)
  }

  /** Where a move from (x, y) ends: up and down change only y, right and left only x, by
      the move's length. */
  function Advance(x: int, y: int, m: Move): (p: (int, int))
    ensures m.direction == Up || m.direction == Down ==> p.0 == x
    ensures m.direction == Right || m.direction == Left ==> p.1 == y
    ensures Abs(p.0 - x) + Abs(p.1 - y) == m.length
    ensures m.direction == Up ==> p.1 >= y
    ensures m.direction == Down ==> p.1 <= y
    ensures m.direction == Right ==> p.0 >= x
    ensures m.direction == Left ==> p.0 <= x
  {
    match m.direction
    case Up => (x, y + m.length)
    case Right => (x + m.length, y)
    case Down => (x, y - m.length)
    case Left => (x - m.length, y)
  }

  /** `lines` is the wire drawn by `moves`: one segment per move, in order, the first
      starting at the origin, each later one starting where the previous one ended, and
      each ending where its move leads. */
  ghost predicate Traces(lines: seq<Line>, moves: seq<Move>)
  {
    && |lines| == |moves|
    && (|lines| > 0 ==> lines[0].x1 == 0 && lines[0].y1 == 0)
    && (forall k :: 0 < k < |lines| ==> lines[k].x1 == lines[k - 1].x2 && lines[k].y1 == lines[k - 1].y2)
    && (forall k :: 0 <= k < |lines| ==> (lines[k].x2, lines[k].y2) == Advance(lines[k].x1, lines[k].y1, moves[k]))
  }

  /** The first token that fails to parse decides the error of the whole path. */
  lemma ParseMovesFirstFailure(tokens: seq<string>, k: nat)
    requires k < |tokens| && ParseMove(tokens[k]).Failure?
    requires forall q :: 0 <= q < k ==> ParseMove(tokens[q]).Success?
    ensures ParseMoves(tokens) == Failure(ParseMove(tokens[k]).error)
  {
    var all := ParseMoves(tokens);
    var f :| 0 <= f < |tokens| && ParseMove(tokens[f]) == Failure(all.error) &&
      (forall q :: 0 <= q < f ==> ParseMove(tokens[q]).Success?);
    assert f == k;
  }

  /** When every token parses, the moves read one by one are the path's moves. */
  lemma ParseMovesAll(tokens: seq<string>, moves: seq<Move>)
    requires |moves| == |tokens|
    requires forall q :: 0 <= q < |tokens| ==> ParseMove(tokens[q]) == Success(moves[q])
    ensures ParseMoves(tokens) == Success(moves)
  {
    assert ParseMoves(tokens).value == moves;
  }

  /** A token that reads as a move extends the moves read from the tokens before it. */
  lemma ParseMovesExtend(tokens: seq<string>, k: nat, moves: seq<Move>, m: Move)
    requires k < |tokens| && ParseMoves(tokens[..k]) == Success(moves)
    requires ParseMove(tokens[k]) == Success(m)
    ensures ParseMoves(tokens[..k + 1]) == Success(moves + [m])
  {
    var longer := tokens[..k + 1];
    forall q | 0 <= q < k + 1
      ensures ParseMove(longer[q]) == Success((moves + [m])[q])
    {
      if q < k {
        assert longer[q] == tokens[..k][q];
      }
    }
    ParseMovesAll(longer, moves + [m]);
  }

  /** A token that does not read as a move, after tokens that all do, decides the error. */
  lemma ParseMovesStopAt(tokens: seq<string>, k: nat)
    requires k < |tokens| && ParseMoves(tokens[..k]).Success?
    requires ParseMove(tokens[k]).Failure?
    ensures ParseMoves(tokens) == Failure(ParseMove(tokens[k]).error)
  {
    forall q | 0 <= q < k
      ensures ParseMove(tokens[q]).Success?
    {
      assert tokens[..k][q] == tokens[q];
    }
    ParseMovesFirstFailure(tokens, k);
  }

  /** Drawing one more move from the end of a traced wire extends the trace. */
  lemma TracesExtend(lines: seq<Line>, moves: seq<Move>, m: Move, x: int, y: int)
    requires Traces(lines, moves)
    requires |lines| == 0 ==> x == 0 && y == 0
    requires |lines| > 0 ==> x == lines[|lines| - 1].x2 && y == lines[|lines| - 1].y2
    ensures Traces(lines + [Line(x, y, Advance(x, y, m).0, Advance(x, y, m).1)], moves + [m])
  {
    var p := Advance(x, y, m);
    LinksExtend(lines, Line(x, y, p.0, p.1));
    AdvancesExtend(lines, moves, m, Line(x, y, p.0, p.1));
  }

  lemma LinksExtend(lines: seq<Line>, last: Line)
    requires forall k :: 0 < k < |lines| ==> lines[k].x1 == lines[k - 1].x2 && lines[k].y1 == lines[k - 1].y2
    requires |lines| > 0 ==> last.x1 == lines[|lines| - 1].x2 && last.y1 == lines[|lines| - 1].y2
    ensures var lines' := lines + [last];
            forall k :: 0 < k < |lines'| ==> lines'[k].x1 == lines'[k - 1].x2 && lines'[k].y1 == lines'[k - 1].y2
  {
    var lines' := lines + [last];
    forall k | 0 < k < |lines'|
      ensures lines'[k].x1 == lines'[k - 1].x2 && lines'[k].y1 == lines'[k - 1].y2
    {
      if k < |lines| {
        assert lines'[k] == lines[k] && lines'[k - 1] == lines[k - 1];
      }
    }
  }

  lemma AdvancesExtend(lines: seq<Line>, moves: seq<Move>, m: Move, last: Line)
    requires |lines| == |moves|
    requires forall k :: 0 <= k < |lines| ==> (lines[k].x2, lines[k].y2) == Advance(lines[k].x1, lines[k].y1, moves[k])
    requires (last.x2, last.y2) == Advance(last.x1, last.y1, m)
    ensures var lines', moves' := lines + [last], moves + [m];
            forall k :: 0 <= k < |lines'| ==> (lines'[k].x2, lines'[k].y2) == Advance(lines'[k].x1, lines'[k].y1, moves'[k])
  {
    var lines', moves' := lines + [last], moves + [m];
    forall k | 0 <= k < |lines'|
      ensures (lines'[k].x2, lines'[k].y2) == Advance(lines'[k].x1, lines'[k].y1, moves'[k])
    {
      if k < |lines| {
        assert lines'[k] == lines[k] && moves'[k] == moves[k];
      }
    }
  }

  /** Where the path drawn by `moves` from the origin ends. */
  function PathEnd(moves: seq<Move>): (int, int)
  {
    if moves == [] then (0, 0)
    else
      var p := PathEnd(moves[..|moves| - 1]);
      Advance(p.0, p.1, moves[|moves| - 1])
  }

  /** The segments drawn for `moves` from the origin, each from where the one before it ends. */
  function Path(moves: seq<Move>): (lines: seq<Line>)
    ensures |lines| == |moves|
  {
    if moves == [] then []
    else
      var before := moves[..|moves| - 1];
      var start, end := PathEnd(before), PathEnd(moves);
      Path(before) + [Line(start.0, start.1, end.0, end.1)]
  }

  /** One more move adds one segment, from where the path ended to where the move leads. */
  lemma PathAppend(moves: seq<Move>, m: Move)
    ensures PathEnd(moves + [m]) == Advance(PathEnd(moves).0, PathEnd(moves).1, m)
    ensures Path(moves + [m]) == Path(moves) + [Line(PathEnd(moves).0, PathEnd(moves).1,
                                                     PathEnd(moves + [m]).0, PathEnd(moves + [m]).1)]
  {
    assert (moves + [m])[..|moves|] == moves;
  }

  /** The drawn path traces its moves from the origin and ends where its last segment does. */
  lemma {:induction false} PathTraces(moves: seq<Move>)
    ensures Traces(Path(moves), moves)
    ensures moves != [] ==> PathEnd(moves) == (Path(moves)[|moves| - 1].x2, Path(moves)[|moves| - 1].y2)
  {
    if moves != [] {
      var before, m := moves[..|moves| - 1], moves[|moves| - 1];
      assert before + [m] == moves;
      PathTraces(before);
      PathAppend(before, m);
      var start := PathEnd(before);
      TracesExtend(Path(before), before, m, start.0, start.1);
    }
  }

  /** What reading a path's tokens yields: the error of the first bad token, or the path
      its moves draw. */
  function ReadPath(tokens: seq<string>): Result<seq<Line>, PathError>
  {
    match ParseMoves(tokens)
    case Failure(e) => Failure(e)
    case Success(moves) => Success(Path(moves))
  }

  /** A path read without error traces the parsed moves from the origin. */
  lemma ReadPathTraces(tokens: seq<string>)
    ensures ReadPath(tokens).Failure? <==> ParseMoves(tokens).Failure?
    ensures ReadPath(tokens).Failure? ==> ReadPath(tokens).error == ParseMoves(tokens).error
    ensures ReadPath(tokens).Success? ==> Traces(ReadPath(tokens).value, ParseMoves(tokens).value)
  {
    if ParseMoves(tokens).Success? {
      PathTraces(ParseMoves(tokens).value);
    }
  }

  /** `readInputLine`: the segments of one wire, or the error of its first bad token. */
  method ReadInputLine(inputLine: string) returns (r: Result<seq<Line>, PathError>)
    ensures r == ReadPath(Split(inputLine))
  {
    var tokens := Split(inputLine);
    var lineStartX, lineStartY := 0, 0;
    var lines: seq<Line> := [];
    ghost var moves: seq<Move> := [];
    for k := 0 to |tokens|
      invariant ParseMoves(tokens[..k]) == Success(moves)
      invariant lines == Path(moves)
      invariant (lineStartX, lineStartY) == PathEnd(moves)
    {
      var move := ParseMove(tokens[k]);
      if move.Failure? {
        ParseMovesStopAt(tokens, k);
        return Failure(move.error);
      }
      var (lineEndX, lineEndY) := Advance(lineStartX, lineStartY, move.value);
      ParseMovesExtend(tokens, k, moves, move.value);
      PathAppend(moves, move.value);
      assert Path(moves + [move.value]) == lines + [Line(lineStartX, lineStartY, lineEndX, lineEndY)];
      lines := lines + [Line(lineStartX, lineStartY, lineEndX, lineEndY)];
      moves := moves + [move.value];
      lineStartX, lineStartY := lineEndX, lineEndY;
    }
    assert tokens[..|tokens|] == tokens;
    return Success(lines);
  }
}
