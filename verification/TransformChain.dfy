// The chain of geometric steps that led from an original image to the one that
// was recognised, and the way back for coordinates. Exact reals stand for the
// original's floating point numbers; a deskew angle is given by its cosine and
// sine, of which only that their squares add up to one is used.
module TransformChains {
  import opened Wrappers

  datatype Point = Point(x: real, y: real)

  datatype Rotation = Clockwise90 | Clockwise180 | Clockwise270

  datatype Step =
    | Crop(left: real, top: real, width: real, height: real)
    | Deskew(cosine: real, sine: real)
    | FlipHorizontal
    | FlipVertical
    | Rotate(rotation: Rotation)

  predicate ValidStep(s: Step) {
    match s
    case Crop(left, top, width, height) =>
      left >= 0.0 && top >= 0.0 && width > 0.0 && height > 0.0 && left + width <= 1.0 && top + height <= 1.0
    case Deskew(c, s) => c * c + s * s == 1.0 && c > 0.0
    case _ => true
  }

  predicate ValidSteps(steps: seq<Step>) {
    forall i :: 0 <= i < |steps| ==> ValidStep(steps[i])
  }

  predicate InSquare(p: Point) {
    0.0 <= p.x <= 1.0 && 0.0 <= p.y <= 1.0
  }

  // ------------------------------------------------------- one step, both ways

  /** A turn about the origin. */
  function Turn(c: real, s: real, u: Point): Point {
    Point(c * u.x - s * u.y, s * u.x + c * u.y)
  }

  /** A turn about the middle of the square. */
  function TurnAboutMiddle(c: real, s: real, p: Point): Point {
    var u := Turn(c, s, Point(p.x - 0.5, p.y - 0.5));
    Point(0.5 + u.x, 0.5 + u.y)
  }

  /** Where a point of the image before the step lies in the image after it. */
  function Forward(s: Step, p: Point): Point
    requires ValidStep(s)
  {
    match s
    case Crop(left, top, width, height) => Point((p.x - left) / width, (p.y - top) / height)
    case Deskew(c, s) => TurnAboutMiddle(c, s, p)
    case FlipHorizontal => Point(1.0 - p.x, p.y)
    case FlipVertical => Point(p.x, 1.0 - p.y)
    case Rotate(Clockwise90) => Point(1.0 - p.y, p.x)
    case Rotate(Clockwise180) => Point(1.0 - p.x, 1.0 - p.y)
    case Rotate(Clockwise270) => Point(p.y, 1.0 - p.x)
  }

  function Backward(s: Step, p: Point): Point {
    match s
    case Crop(left, top, width, height) => Point(left + p.x * width, top + p.y * height)
    case Deskew(c, s) => TurnAboutMiddle(c, -s, p)
    case FlipHorizontal => Point(1.0 - p.x, p.y)
    case FlipVertical => Point(p.x, 1.0 - p.y)
    case Rotate(Clockwise90) => Point(p.y, 1.0 - p.x)
    case Rotate(Clockwise180) => Point(1.0 - p.x, 1.0 - p.y)
    case Rotate(Clockwise270) => Point(1.0 - p.y, p.x)
  }

  /** What the steps show: a crop its window from corner to corner; a clockwise
      quarter turn takes the top left corner to the top right, and so on round;
      a flip exchanges two sides; a deskew leaves the middle and turns the point
      right of it by its angle. */
  lemma StepsMean(s: Step)
    requires ValidStep(s)
    ensures match s
            case Crop(left, top, width, height) =>
              && Backward(s, Point(0.0, 0.0)) == Point(left, top) && Backward(s, Point(1.0, 1.0)) == Point(left + width, top + height)
              && Forward(s, Point(left, top)) == Point(0.0, 0.0)
            case Deskew(c, a) =>
              && Forward(s, Point(0.5, 0.5)) == Point(0.5, 0.5) == Backward(s, Point(0.5, 0.5))
              && Forward(s, Point(1.0, 0.5)) == Point(0.5 + 0.5 * c, 0.5 + 0.5 * a)
              && Backward(s, Point(1.0, 0.5)) == Point(0.5 + 0.5 * c, 0.5 - 0.5 * a)
            case FlipHorizontal => Forward(s, Point(0.0, 0.0)) == Point(1.0, 0.0) && Forward(s, Point(0.0, 1.0)) == Point(1.0, 1.0)
            case FlipVertical => Forward(s, Point(0.0, 0.0)) == Point(0.0, 1.0) && Forward(s, Point(1.0, 0.0)) == Point(1.0, 1.0)
            case Rotate(turn) =>
              && Forward(s, Point(0.0, 0.0))
                 == (match turn
                     case Clockwise90 => Point(1.0, 0.0)
                     case Clockwise180 => Point(1.0, 1.0)
                     case Clockwise270 => Point(0.0, 1.0))
              && Forward(s, Point(1.0, 0.0))
                 == (match turn
                     case Clockwise90 => Point(1.0, 1.0)
                     case Clockwise180 => Point(0.0, 1.0)
                     case Clockwise270 => Point(0.0, 0.0))
  {
    if s.Crop? {
      NothingOver(s.width);
      NothingOver(s.height);
    }
  }

  lemma NothingOver(size: real)
    requires size > 0.0
    ensures 0.0 / size == 0.0
  {
  }

  lemma TurnBack(c: real, s: real, u: Point)
    requires c * c + s * s == 1.0
    ensures Turn(c, -s, Turn(c, s, u)) == u
  {
    assert c * (c * u.x - s * u.y) + s * (s * u.x + c * u.y) == (c * c + s * s) * u.x;
    assert -s * (c * u.x - s * u.y) + c * (s * u.x + c * u.y) == (c * c + s * s) * u.y;
  }

  lemma MiddleTurnBack(c: real, s: real, p: Point)
    requires c * c + s * s == 1.0
    ensures TurnAboutMiddle(c, -s, TurnAboutMiddle(c, s, p)) == p
  {
    hide Turn;
    var u := Point(p.x - 0.5, p.y - 0.5);
    TurnBack(c, s, u);
    var v := Turn(c, s, u);
    assert Point(0.5 + v.x - 0.5, 0.5 + v.y - 0.5) == v;
  }

  lemma ScaleBack(low: real, size: real, x: real)
    requires size > 0.0
    ensures low + ((x - low) / size) * size == x
    ensures (low + x * size - low) / size == x
  {
    assert low + x * size - low == x * size;
  }

  lemma CropInverts(s: Step, p: Point)
    requires ValidStep(s) && s.Crop?
    ensures Backward(s, Forward(s, p)) == p
    ensures Forward(s, Backward(s, p)) == p
  {
    ScaleBack(s.left, s.width, p.x);
    ScaleBack(s.top, s.height, p.y);
  }

  lemma DeskewInverts(s: Step, p: Point)
    requires ValidStep(s) && s.Deskew?
    ensures Backward(s, Forward(s, p)) == p
    ensures Forward(s, Backward(s, p)) == p
  {
    hide TurnAboutMiddle;
    MiddleTurnBack(s.cosine, s.sine, p);
    assert (-s.sine) * (-s.sine) == s.sine * s.sine && -(-s.sine) == s.sine;
    MiddleTurnBack(s.cosine, -s.sine, p);
  }

  lemma StepInverts(s: Step, p: Point)
    requires ValidStep(s)
    ensures Backward(s, Forward(s, p)) == p
    ensures Forward(s, Backward(s, p)) == p
  {
    if s.Crop? {
      hide Forward, Backward;
      CropInverts(s, p);
    } else if s.Deskew? {
      hide Forward, Backward;
      DeskewInverts(s, p);
    }
  }

  // -------------------------------------------------------------------- chains

  function ForwardAll(steps: seq<Step>, p: Point): Point
    requires ValidSteps(steps)
  {
    if steps == [] then p else Forward(steps[|steps| - 1], ForwardAll(steps[..|steps| - 1], p))
  }

  function BackwardAll(steps: seq<Step>, p: Point): Point {
    if steps == [] then p else BackwardAll(steps[..|steps| - 1], Backward(steps[|steps| - 1], p))
  }

  /** Mapping back undoes all recorded steps, in both directions. */
  lemma {:induction false} ChainInverts(steps: seq<Step>, p: Point)
    requires ValidSteps(steps)
    ensures BackwardAll(steps, ForwardAll(steps, p)) == p
    ensures ForwardAll(steps, BackwardAll(steps, p)) == p
  {
    if steps != [] {
      var front, last := steps[..|steps| - 1], steps[|steps| - 1];
      StepInverts(last, ForwardAll(front, p));
      ChainInverts(front, p);
      ChainInverts(front, Backward(last, p));
      StepInverts(last, p);
    }
  }

  datatype GeometryError = InvalidGeometry | InvalidPolygon

  class TransformChain {
    var steps: seq<Step>

    constructor ()
      ensures steps == []
    {
      steps := [];
    }

    method Push(step: Step)
      requires ValidStep(step)
      modifies this
      ensures steps == old(steps) + [step]
    {
      steps := steps + [step];
    }

    method MapToOriginal(x: real, y: real) returns (r: Result<Point, GeometryError>)
      ensures r == if InSquare(Point(x, y)) && InSquare(BackwardAll(steps, Point(x, y)))
                   then Ok(BackwardAll(steps, Point(x, y))) else Err(InvalidGeometry)
    {
      if !(0.0 <= x <= 1.0) || !(0.0 <= y <= 1.0) {
        return Err(InvalidGeometry);
      }
      var p := Point(x, y);
      var i := |steps|;
      assert steps[..i] == steps;
      while i > 0
        invariant 0 <= i <= |steps|
        invariant BackwardAll(steps[..i], p) == BackwardAll(steps, Point(x, y))
      {
        assert steps[..i][..i - 1] == steps[..i - 1];
        i := i - 1;
        p := Backward(steps[i], p);
      }
      if 0.0 <= p.x <= 1.0 && 0.0 <= p.y <= 1.0 {
        return Ok(p);
      }
      return Err(InvalidGeometry);
    }

    /** Writes down how the decoded image was turned upright. */
    method RecordOrientation(orientation: Orientation)
      modifies this
      ensures steps == old(steps) + OrientationSteps(orientation)
    {
      match orientation {
        case NoTransforms =>
        case Rotate90 => Push(Rotate(Clockwise90));
        case Rotate180 => Push(Rotate(Clockwise180));
        case Rotate270 => Push(Rotate(Clockwise270));
        case FlippedHorizontally => Push(FlipHorizontal);
        case FlippedVertically => Push(FlipVertical);
        case Rotate90FlipH =>
          Push(Rotate(Clockwise90));
          Push(FlipHorizontal);
        case Rotate270FlipH =>
          Push(Rotate(Clockwise270));
          Push(FlipHorizontal);
      }
    }
  }

  // --------------------------------------------------- staying inside the square

  predicate HasDeskew(steps: seq<Step>) {
    exists i :: 0 <= i < |steps| && steps[i].Deskew?
  }

  lemma PartOf(part: real, size: real)
    requires 0.0 <= part <= 1.0 && size > 0.0
    ensures 0.0 <= part * size <= size
  {
    assert size - part * size == (1.0 - part) * size;
  }

  lemma ZeroFactor(a: real, b: real)
    requires a * b == 0.0 && b > 0.0
    ensures a == 0.0
  {
    if a > 0.0 {
      PositiveProduct(a, b);
    } else if a < 0.0 {
      PositiveProduct(-a, b);
    }
  }

  lemma WindowStaysInside(low: real, size: real, part: real)
    requires low >= 0.0 && size > 0.0 && low + size <= 1.0 && 0.0 <= part <= 1.0
    ensures 0.0 <= low + part * size <= 1.0
  {
    PartOf(part, size);
  }

  lemma StepStaysInside(s: Step, p: Point)
    requires ValidStep(s) && !s.Deskew? && InSquare(p)
    ensures InSquare(Backward(s, p))
  {
    hide TurnAboutMiddle;
    match s
    case Crop(left, top, width, height) =>
      WindowStaysInside(left, width, p.x);
      WindowStaysInside(top, height, p.y);
    case _ =>
  }

  /** Without a deskew every point of the square has an original inside the
      square: the mapping never fails. */
  lemma {:induction false} ChainStaysInside(steps: seq<Step>, p: Point)
    requires ValidSteps(steps) && !HasDeskew(steps) && InSquare(p)
    ensures InSquare(BackwardAll(steps, p))
  {
    if steps != [] {
      var front, last := steps[..|steps| - 1], steps[|steps| - 1];
      assert !last.Deskew?;
      assert forall i :: 0 <= i < |front| ==> front[i] == steps[i];
      StepStaysInside(last, p);
      ChainStaysInside(front, Backward(last, p));
    }
  }

  lemma BinomialSquare(a: real, b: real, t: real)
    requires t == a + b
    ensures t * t == a * a + 2.0 * (a * b) + b * b
    ensures (t - 1.0) * (t + 1.0) == t * t - 1.0
  {
  }

  lemma ProductSign(a: real, b: real, product: real)
    requires b > 0.0 && product == a * b
    ensures a > 0.0 <==> product > 0.0
  {
    if a > 0.0 {
      PositiveProduct(a, b);
    } else if a < 0.0 {
      PositiveProduct(-a, b);
      assert (-a) * b == -(a * b);
    }
  }

  /** The two shorter sides of a right triangle are together longer than its longest. */
  lemma SumExceedsOne(a: real, b: real, t: real)
    requires a * a + b * b == 1.0 && a > 0.0 && b > 0.0 && t == a + b
    ensures t > 1.0
  {
    PositiveProduct(a, b);
    BinomialSquare(a, b, t);
    ProductSign(t - 1.0, t + 1.0, 2.0 * (a * b));
  }

  /** The corner that a turn by a positive or a negative angle loses. */
  lemma CornerLeaves(c: real, s: real)
    requires c * c + s * s == 1.0 && c > 0.0 && s != 0.0
    ensures !InSquare(TurnAboutMiddle(c, -s, Point(if s > 0.0 then 0.0 else 1.0, 0.0)))
  {
    if s > 0.0 {
      SumExceedsOne(c, s, c + s);
      assert TurnAboutMiddle(c, -s, Point(0.0, 0.0)).x == 0.5 - 0.5 * c - 0.5 * s;
    } else {
      assert (-s) * (-s) == s * s;
      SumExceedsOne(c, -s, c - s);
      assert TurnAboutMiddle(c, -s, Point(1.0, 0.0)).x == 0.5 + 0.5 * c - 0.5 * s;
    }
  }

  lemma NoTurn(c: real, s: real, p: Point)
    requires c * c + s * s == 1.0 && c > 0.0 && s == 0.0
    ensures TurnAboutMiddle(c, -s, p) == p
  {
    assert (c - 1.0) * (c + 1.0) == c * c - 1.0;
    ZeroFactor(c - 1.0, c + 1.0);
    assert c == 1.0;
  }

  /** A deskew alone keeps the whole square exactly when it turns nothing. */
  lemma DeskewStaysInside(c: real, s: real)
    requires ValidStep(Deskew(c, s))
    ensures (forall p :: InSquare(p) ==> InSquare(Backward(Deskew(c, s), p))) <==> s == 0.0
  {
    hide TurnAboutMiddle;
    if s == 0.0 {
      forall p | InSquare(p) ensures InSquare(Backward(Deskew(c, s), p)) {
        NoTurn(c, s, p);
      }
    } else {
      CornerLeaves(c, s);
      var corner := Point(if s > 0.0 then 0.0 else 1.0, 0.0);
      assert InSquare(corner) && !InSquare(Backward(Deskew(c, s), corner));
    }
  }

  // --------------------------------------- which chains keep a region inside

  datatype Region = Region(left: real, top: real, right: real, bottom: real)

  predicate ValidRegion(r: Region) {
    0.0 <= r.left < r.right <= 1.0 && 0.0 <= r.top < r.bottom <= 1.0
  }

  predicate InRegion(r: Region, p: Point) {
    r.left <= p.x <= r.right && r.top <= p.y <= r.bottom
  }

  function Corners(r: Region): seq<Point> {
    [Point(r.left, r.top), Point(r.right, r.top), Point(r.right, r.bottom), Point(r.left, r.bottom)]
  }

  const SQUARE := Region(0.0, 0.0, 1.0, 1.0)

  /** Every point of the region has its original inside the image. */
  ghost predicate StaysInside(steps: seq<Step>, r: Region) {
    forall p :: InRegion(r, p) ==> InSquare(BackwardAll(steps, p))
  }

  predicate CornersStayInside(steps: seq<Step>, r: Region) {
    forall i :: 0 <= i < 4 ==> InSquare(BackwardAll(steps, Corners(r)[i]))
  }

  function Scaled(t: real, u: Point): Point {
    Point(t * u.x, t * u.y)
  }

  /** The point a fraction t of the way from one point to another. */
  function Between(t: real, p: Point, q: Point): Point {
    Point(p.x + t * (q.x - p.x), p.y + t * (q.y - p.y))
  }

  lemma TurnScales(c: real, s: real, t: real, u: Point)
    ensures Turn(c, s, Scaled(t, u)) == Scaled(t, Turn(c, s, u))
  {
    assert c * (t * u.x) - s * (t * u.y) == t * (c * u.x - s * u.y);
    assert s * (t * u.x) + c * (t * u.y) == t * (s * u.x + c * u.y);
  }

  lemma LinearScales(s: Step, t: real, u: Point)
    ensures Linear(s, Scaled(t, u)) == Scaled(t, Linear(s, u))
  {
    hide Turn, Scaled, Linear;
    if s.Crop? {
      CropScales(s, t, u);
    } else if s.Deskew? {
      DeskewScales(s, t, u);
    } else {
      RigidScales(s, t, u);
    }
  }

  lemma CropScales(s: Step, t: real, u: Point)
    requires s.Crop?
    ensures Linear(s, Scaled(t, u)) == Scaled(t, Linear(s, u))
  {
    Reassociate(t, u.x, s.width);
    Reassociate(t, u.y, s.height);
  }

  lemma DeskewScales(s: Step, t: real, u: Point)
    requires s.Deskew?
    ensures Linear(s, Scaled(t, u)) == Scaled(t, Linear(s, u))
  {
    hide Turn, Scaled;
    TurnScales(s.cosine, -s.sine, t, u);
  }

  lemma RigidScales(s: Step, t: real, u: Point)
    requires !s.Crop? && !s.Deskew?
    ensures Linear(s, Scaled(t, u)) == Scaled(t, Linear(s, u))
  {
    Negated(t, u);
  }

  lemma Reassociate(a: real, b: real, c: real)
    ensures (a * b) * c == a * (b * c)
  {
  }

  lemma Negated(t: real, u: Point)
    ensures t * -u.x == -(t * u.x) && t * -u.y == -(t * u.y)
  {
  }

  /** A step takes segments to segments, point by point. */
  lemma StepKeepsBetween(s: Step, t: real, p: Point, q: Point)
    ensures Backward(s, Between(t, p, q)) == Between(t, Backward(s, p), Backward(s, q))
  {
    hide Backward, Linear;
    StepIsAffine(s, Between(t, p, q), p);
    StepIsAffine(s, q, p);
    assert Difference(Between(t, p, q), p) == Scaled(t, Difference(q, p));
    LinearScales(s, t, Difference(q, p));
  }

  lemma {:induction false} ChainKeepsBetween(steps: seq<Step>, t: real, p: Point, q: Point)
    ensures BackwardAll(steps, Between(t, p, q)) == Between(t, BackwardAll(steps, p), BackwardAll(steps, q))
  {
    hide Between, Backward;
    if steps != [] {
      var front, last := steps[..|steps| - 1], steps[|steps| - 1];
      StepKeepsBetween(last, t, p, q);
      ChainKeepsBetween(front, t, Backward(last, p), Backward(last, q));
    }
  }

  lemma NotNegative(a: real, b: real)
    requires a >= 0.0 && b >= 0.0
    ensures a * b >= 0.0
  {
    if a > 0.0 && b > 0.0 {
      PositiveProduct(a, b);
    }
  }

  lemma Expanded(t: real, a: real, b: real)
    ensures t * (b - a) == t * b - t * a
    ensures (1.0 - t) * a == a - t * a
    ensures t * (1.0 - b) == t - t * b
    ensures (1.0 - t) * (1.0 - a) == 1.0 - t - a + t * a
  {
  }

  lemma BetweenNumbers(t: real, a: real, b: real)
    requires 0.0 <= t <= 1.0 && 0.0 <= a <= 1.0 && 0.0 <= b <= 1.0
    ensures 0.0 <= a + t * (b - a) <= 1.0
  {
    Expanded(t, a, b);
    NotNegative(1.0 - t, a);
    NotNegative(t, b);
    NotNegative(t, 1.0 - b);
    NotNegative(1.0 - t, 1.0 - a);
  }

  lemma SquareIsConvex(t: real, p: Point, q: Point)
    requires 0.0 <= t <= 1.0 && InSquare(p) && InSquare(q)
    ensures InSquare(Between(t, p, q))
  {
    BetweenNumbers(t, p.x, q.x);
    BetweenNumbers(t, p.y, q.y);
  }

  lemma Fraction(low: real, high: real, x: real) returns (t: real)
    requires low < high && low <= x <= high
    ensures 0.0 <= t <= 1.0 && low + t * (high - low) == x
  {
    t := (x - low) / (high - low);
    ProperFraction(t, high - low, x - low);
  }

  lemma ProperFraction(t: real, size: real, part: real)
    requires size > 0.0 && 0.0 <= part <= size && t == part / size
    ensures 0.0 <= t <= 1.0 && t * size == part
  {
    assert t * size == part;
    Shifted(t, size);
    ProductSign(-t, size, -part);
    ProductSign(t - 1.0, size, part - size);
  }

  lemma Shifted(t: real, size: real)
    ensures (-t) * size == -(t * size) && (t - 1.0) * size == t * size - size
  {
  }

  /** Each point of a region lies between its corners. */
  lemma PointFromCorners(steps: seq<Step>, r: Region, p: Point)
    requires ValidRegion(r) && InRegion(r, p) && CornersStayInside(steps, r)
    ensures InSquare(BackwardAll(steps, p))
  {
    hide BackwardAll, InSquare, ValidRegion;
    var k := Corners(r);
    var t, u;
    assert r.left < r.right && r.top < r.bottom by { ValidRegionIsOrdered(r); }
    t := Fraction(r.left, r.right, p.x);
    u := Fraction(r.top, r.bottom, p.y);
    var above, below := Between(t, k[0], k[1]), Between(t, k[3], k[2]);
    NoWay(t, r.top);
    NoWay(t, r.bottom);
    assert above == Point(p.x, r.top) && below == Point(p.x, r.bottom);
    NoWay(u, p.x);
    assert Between(u, above, below) == p;
    ChainKeepsBetween(steps, t, k[0], k[1]);
    ChainKeepsBetween(steps, t, k[3], k[2]);
    ChainKeepsBetween(steps, u, above, below);
    SquareIsConvex(t, BackwardAll(steps, k[0]), BackwardAll(steps, k[1]));
    SquareIsConvex(t, BackwardAll(steps, k[3]), BackwardAll(steps, k[2]));
    SquareIsConvex(u, BackwardAll(steps, above), BackwardAll(steps, below));
  }

  lemma ValidRegionIsOrdered(r: Region)
    requires ValidRegion(r)
    ensures r.left < r.right && r.top < r.bottom
  {
  }

  lemma NoWay(t: real, a: real)
    ensures a + t * (a - a) == a
  {
  }

  /** Mapping back never fails on a region exactly when it does not fail on the
      region's four corners, whatever the chain: the corners that the polygon
      of a recognition is made of stand for the whole region. */
  lemma CornersDecide(steps: seq<Step>, r: Region)
    requires ValidRegion(r)
    ensures StaysInside(steps, r) <==> CornersStayInside(steps, r)
  {
    if StaysInside(steps, r) {
      forall i | 0 <= i < 4 ensures InSquare(BackwardAll(steps, Corners(r)[i])) {
        assert InRegion(r, Corners(r)[i]);
      }
    }
    if CornersStayInside(steps, r) {
      forall p | InRegion(r, p) ensures InSquare(BackwardAll(steps, p)) {
        PointFromCorners(steps, r, p);
      }
    }
  }

  // ------------------------------------------ one deskew among flips and turns

  predicate Rigid(steps: seq<Step>) {
    forall i :: 0 <= i < |steps| ==> !steps[i].Crop? && !steps[i].Deskew?
  }

  lemma {:induction false} RigidKeepsSquare(steps: seq<Step>, p: Point)
    requires Rigid(steps)
    ensures InSquare(BackwardAll(steps, p)) <==> InSquare(p)
  {
    if steps != [] {
      var front, last := steps[..|steps| - 1], steps[|steps| - 1];
      assert !last.Crop? && !last.Deskew?;
      assert forall i :: 0 <= i < |front| ==> front[i] == steps[i];
      RigidKeepsSquare(front, Backward(last, p));
    }
  }

  lemma {:induction false} BackwardAppend(a: seq<Step>, b: seq<Step>, p: Point)
    ensures BackwardAll(a + b, p) == BackwardAll(a, BackwardAll(b, p))
  {
    if b == [] {
      assert a + b == a;
    } else {
      var front, last := b[..|b| - 1], b[|b| - 1];
      assert (a + b)[..|a + b| - 1] == a + front;
      BackwardAppend(a, front, Backward(last, p));
    }
  }

  lemma OneDeskewStep(before: seq<Step>, c: real, s: real, after: seq<Step>, p: Point)
    requires Rigid(before)
    ensures InSquare(BackwardAll(before + [Deskew(c, s)] + after, p))
        <==> InSquare(Backward(Deskew(c, s), BackwardAll(after, p)))
  {
    hide TurnAboutMiddle, InSquare;
    BackwardAppend(before + [Deskew(c, s)], after, p);
    BackwardAppend(before, [Deskew(c, s)], BackwardAll(after, p));
    OneStep(Deskew(c, s), BackwardAll(after, p));
    RigidKeepsSquare(before, Backward(Deskew(c, s), BackwardAll(after, p)));
  }

  /** With flips and quarter turns around it a single deskew keeps the square
      exactly when it turns nothing. Crops change that: see CroppedDeskew. */
  lemma OneDeskewKeepsSquare(before: seq<Step>, c: real, s: real, after: seq<Step>)
    requires Rigid(before) && Rigid(after) && ValidStep(Deskew(c, s))
    ensures StaysInside(before + [Deskew(c, s)] + after, SQUARE) <==> s == 0.0
  {
    hide BackwardAll, Backward, ValidStep;
    var steps := before + [Deskew(c, s)] + after;
    DeskewStaysInside(c, s);
    if s == 0.0 {
      forall p | InRegion(SQUARE, p) ensures InSquare(BackwardAll(steps, p)) {
        RigidKeepsSquare(after, p);
        OneDeskewStep(before, c, s, after, p);
      }
    } else {
      var corner :| InSquare(corner) && !InSquare(Backward(Deskew(c, s), corner));
      RigidIsValid(after);
      var p := ForwardAll(after, corner);
      ChainInverts(after, corner);
      RigidKeepsSquare(after, p);
      OneDeskewStep(before, c, s, after, p);
      assert InRegion(SQUARE, p);
    }
  }

  lemma RigidIsValid(steps: seq<Step>)
    requires Rigid(steps)
    ensures ValidSteps(steps)
  {
    forall i | 0 <= i < |steps| ensures ValidStep(steps[i]) {
      assert !steps[i].Crop? && !steps[i].Deskew?;
    }
  }

  /** The recognizer's chain, an orientation and then a deskew, keeps the square
      exactly when the deskew turns nothing. */
  lemma OrientedDeskewKeepsSquare(o: Orientation, c: real, s: real)
    requires ValidStep(Deskew(c, s))
    ensures StaysInside(OrientationSteps(o) + [Deskew(c, s)], SQUARE) <==> s == 0.0
  {
    assert Rigid(OrientationSteps(o)) && Rigid([]);
    OneDeskewKeepsSquare(OrientationSteps(o), c, s, []);
    assert OrientationSteps(o) + [Deskew(c, s)] + [] == OrientationSteps(o) + [Deskew(c, s)];
  }

  /** A crop recorded before a deskew leaves room for it: this chain turns by
      more than ten degrees and still maps the whole square back. */
  lemma CroppedDeskew()
    ensures var steps := [Crop(0.25, 0.25, 0.5, 0.5), Deskew(60.0 / 61.0, 11.0 / 61.0)];
            ValidSteps(steps) && HasDeskew(steps) && StaysInside(steps, SQUARE)
  {
    var crop, deskew := Crop(0.25, 0.25, 0.5, 0.5), Deskew(60.0 / 61.0, 11.0 / 61.0);
    var steps := [crop, deskew];
    assert steps[1].Deskew?;
    forall i | 0 <= i < 4 ensures InSquare(BackwardAll(steps, Corners(SQUARE)[i])) {
      TwoSteps(crop, deskew, Corners(SQUARE)[i]);
    }
    CornersDecide(steps, SQUARE);
  }

  /** Recorded after a quarter turn instead, the same deskew loses a corner. */
  method LoseACorner() returns (r: Result<Point, GeometryError>)
    ensures r == Err(InvalidGeometry)
  {
    var chain := new TransformChain();
    chain.RecordOrientation(Rotate90);
    chain.Push(Deskew(60.0 / 61.0, 11.0 / 61.0));
    assert chain.steps == [Rotate(Clockwise90), Deskew(60.0 / 61.0, 11.0 / 61.0)];
    TwoSteps(Rotate(Clockwise90), Deskew(60.0 / 61.0, 11.0 / 61.0), Point(0.0, 0.0));
    r := chain.MapToOriginal(0.0, 0.0);
  }

  // ----------------------------------------------------------- the orientations

  datatype Orientation =
    | NoTransforms | Rotate90 | Rotate180 | Rotate270
    | FlippedHorizontally | FlippedVertically | Rotate90FlipH | Rotate270FlipH

  function OrientationSteps(o: Orientation): (steps: seq<Step>)
    ensures ValidSteps(steps) && !HasDeskew(steps)
  {
    match o
    case NoTransforms => []
    case Rotate90 => [Rotate(Clockwise90)]
    case Rotate180 => [Rotate(Clockwise180)]
    case Rotate270 => [Rotate(Clockwise270)]
    case FlippedHorizontally => [FlipHorizontal]
    case FlippedVertically => [FlipVertical]
    case Rotate90FlipH => [Rotate(Clockwise90), FlipHorizontal]
    case Rotate270FlipH => [Rotate(Clockwise270), FlipHorizontal]
  }

  lemma OneStep(a: Step, p: Point)
    ensures BackwardAll([a], p) == Backward(a, p)
  {
    assert [a][..0] == [];
  }

  lemma TwoSteps(a: Step, b: Step, p: Point)
    ensures BackwardAll([a], p) == Backward(a, p)
    ensures BackwardAll([a, b], p) == Backward(a, Backward(b, p))
  {
    OneStep(a, p);
    OneStep(a, Backward(b, p));
    assert [a, b][..1] == [a];
  }

  /** The symmetry of the square that an orientation is, written out. */
  function Symmetry(o: Orientation, p: Point): Point {
    match o
    case NoTransforms => p
    case Rotate90 => Point(p.y, 1.0 - p.x)
    case Rotate180 => Point(1.0 - p.x, 1.0 - p.y)
    case Rotate270 => Point(1.0 - p.y, p.x)
    case FlippedHorizontally => Point(1.0 - p.x, p.y)
    case FlippedVertically => Point(p.x, 1.0 - p.y)
    case Rotate90FlipH => Point(p.y, p.x)
    case Rotate270FlipH => Point(1.0 - p.y, 1.0 - p.x)
  }

  lemma OrientationIsASymmetry(o: Orientation, p: Point)
    ensures BackwardAll(OrientationSteps(o), p) == Symmetry(o, p)
  {
    TwoSteps(Rotate(Clockwise90), FlipHorizontal, p);
    TwoSteps(Rotate(Clockwise270), FlipHorizontal, p);
    TwoSteps(Rotate(Clockwise180), FlipHorizontal, p);
    TwoSteps(FlipHorizontal, FlipHorizontal, p);
    TwoSteps(FlipVertical, FlipHorizontal, p);
  }

  /** Different orientations move some point differently. */
  lemma OrientationsAreDistinct(a: Orientation, b: Orientation)
    ensures (forall p :: BackwardAll(OrientationSteps(a), p) == BackwardAll(OrientationSteps(b), p)) <==> a == b
  {
    var p := Point(0.1, 0.3);
    OrientationIsASymmetry(a, p);
    OrientationIsASymmetry(b, p);
    assert a != b ==> Symmetry(a, p) != Symmetry(b, p);
  }

  function After(a: Orientation, b: Orientation): Orientation {
    var p := Symmetry(a, Symmetry(b, Point(0.1, 0.3)));
    if p == Point(0.1, 0.3) then NoTransforms
    else if p == Point(0.3, 0.9) then Rotate90
    else if p == Point(0.9, 0.7) then Rotate180
    else if p == Point(0.7, 0.1) then Rotate270
    else if p == Point(0.9, 0.3) then FlippedHorizontally
    else if p == Point(0.1, 0.7) then FlippedVertically
    else if p == Point(0.3, 0.1) then Rotate90FlipH
    else Rotate270FlipH
  }

  /** One orientation after another is again one of the eight: together they
      are the symmetries of the square. */
  lemma OrientationsCompose(a: Orientation, b: Orientation, p: Point)
    ensures BackwardAll(OrientationSteps(a), BackwardAll(OrientationSteps(b), p)) == BackwardAll(OrientationSteps(After(a, b)), p)
  {
    OrientationIsASymmetry(b, p);
    OrientationIsASymmetry(a, Symmetry(b, p));
    OrientationIsASymmetry(After(a, b), p);
  }

  // ----------------------------------------------------------------------- area

  const EPSILON: real := 1.0 / 4503599627370496.0

  /** Twice the signed area, corner by corner. */
  function SignedDoubleArea(points: seq<Point>, n: nat): real
    requires n <= |points|
  {
    if n == 0 then 0.0
    else
      var p, q := points[n - 1], points[if n == |points| then 0 else n];
      SignedDoubleArea(points, n - 1) + (p.x * q.y - q.x * p.y)
  }

  function Abs(x: real): real {
    if x < 0.0 then -x else x
  }

  function MapAll(steps: seq<Step>, points: seq<Point>): (r: seq<Point>)
    ensures |r| == |points|
    ensures forall i :: 0 <= i < |points| ==> r[i] == BackwardAll(steps, points[i])
  {
    seq(|points|, i requires 0 <= i < |points| => BackwardAll(steps, points[i]))
  }

  /** How a step changes signed areas: crops shrink them, flips turn them over. */
  function Factor(s: Step): real {
    match s
    case Crop(_, _, width, height) => width * height
    case FlipHorizontal => -1.0
    case FlipVertical => -1.0
    case _ => 1.0
  }

  function Factors(steps: seq<Step>): real {
    if steps == [] then 1.0 else Factors(steps[..|steps| - 1]) * Factor(steps[|steps| - 1])
  }

  /** The product of the areas of all crops. */
  function CropAreas(steps: seq<Step>): real {
    if steps == [] then 1.0
    else CropAreas(steps[..|steps| - 1]) * if steps[|steps| - 1].Crop? then steps[|steps| - 1].width * steps[|steps| - 1].height else 1.0
  }

  lemma {:induction false} FactorsAreCropAreas(steps: seq<Step>)
    requires ValidSteps(steps)
    ensures CropAreas(steps) > 0.0 && Abs(Factors(steps)) == CropAreas(steps)
  {
    if steps != [] {
      FactorsAreCropAreas(steps[..|steps| - 1]);
      var last := steps[|steps| - 1];
      if last.Crop? {
        OneMoreCrop(Factors(steps[..|steps| - 1]), CropAreas(steps[..|steps| - 1]), last.width, last.height);
      }
    }
  }

  lemma OneMoreCrop(factors: real, areas: real, width: real, height: real)
    requires areas > 0.0 && Abs(factors) == areas && width > 0.0 && height > 0.0
    ensures areas * (width * height) > 0.0 && Abs(factors * (width * height)) == areas * (width * height)
  {
    PositiveProduct(width, height);
    AbsProduct(factors, width * height);
    PositiveProduct(areas, width * height);
  }

  lemma PositiveProduct(a: real, b: real)
    requires a > 0.0 && b > 0.0
    ensures a * b > 0.0
  {
  }

  lemma AbsProduct(a: real, b: real)
    requires b > 0.0
    ensures Abs(a * b) == Abs(a) * b
  {
    if a > 0.0 {
      PositiveProduct(a, b);
    } else if a < 0.0 {
      PositiveProduct(-a, b);
      assert (-a) * b == -(a * b);
    }
  }

  /** The difference of two points. */
  function Difference(p: Point, q: Point): Point {
    Point(p.x - q.x, p.y - q.y)
  }

  function Cross(u: Point, v: Point): real {
    u.x * v.y - u.y * v.x
  }

  /** The area of four corners is the cross product of the diagonals. */
  lemma Diagonals(a: Point, b: Point, c: Point, d: Point)
    ensures SignedDoubleArea([a, b, c, d], 4) == Cross(Difference(c, a), Difference(d, b))
  {
    var points := [a, b, c, d];
    assert SignedDoubleArea(points, 1) == a.x * b.y - b.x * a.y;
    assert SignedDoubleArea(points, 2) == SignedDoubleArea(points, 1) + (b.x * c.y - c.x * b.y);
    assert SignedDoubleArea(points, 3) == SignedDoubleArea(points, 2) + (c.x * d.y - d.x * c.y);
    assert SignedDoubleArea(points, 4) == SignedDoubleArea(points, 3) + (d.x * a.y - a.x * d.y);
    CrossExpands(a, b, c, d);
  }

  lemma CrossExpands(a: Point, b: Point, c: Point, d: Point)
    ensures Cross(Difference(c, a), Difference(d, b))
         == (a.x * b.y - b.x * a.y) + (b.x * c.y - c.x * b.y) + (c.x * d.y - d.x * c.y) + (d.x * a.y - a.x * d.y)
  {
    assert (c.x - a.x) * (d.y - b.y) == c.x * d.y - c.x * b.y - a.x * d.y + a.x * b.y;
    assert (c.y - a.y) * (d.x - b.x) == c.y * d.x - c.y * b.x - a.y * d.x + a.y * b.x;
  }

  lemma TurnKeepsCross(c: real, s: real, u: Point, v: Point)
    requires c * c + s * s == 1.0
    ensures Cross(Turn(c, -s, u), Turn(c, -s, v)) == Cross(u, v)
  {
    assert (c * u.x + s * u.y) * (-s * v.x + c * v.y)
        == -(c * s) * (u.x * v.x) + (c * c) * (u.x * v.y) - (s * s) * (u.y * v.x) + (c * s) * (u.y * v.y);
    assert (-s * u.x + c * u.y) * (c * v.x + s * v.y)
        == -(c * s) * (u.x * v.x) - (s * s) * (u.x * v.y) + (c * c) * (u.y * v.x) + (c * s) * (u.y * v.y);
    assert (c * c + s * s) * (u.x * v.y) - (c * c + s * s) * (u.y * v.x) == Cross(u, v);
  }

  lemma TurnIsLinear(c: real, s: real, p: Point, q: Point)
    ensures Difference(Turn(c, s, p), Turn(c, s, q)) == Turn(c, s, Difference(p, q))
  {
    assert c * p.x - c * q.x == c * (p.x - q.x) && s * p.y - s * q.y == s * (p.y - q.y);
    assert s * p.x - s * q.x == s * (p.x - q.x) && c * p.y - c * q.y == c * (p.y - q.y);
  }

  /** The linear part of a step. */
  function Linear(s: Step, u: Point): Point {
    match s
    case Crop(_, _, width, height) => Point(u.x * width, u.y * height)
    case Deskew(c, s) => Turn(c, -s, u)
    case FlipHorizontal => Point(-u.x, u.y)
    case FlipVertical => Point(u.x, -u.y)
    case Rotate(Clockwise90) => Point(u.y, -u.x)
    case Rotate(Clockwise180) => Point(-u.x, -u.y)
    case Rotate(Clockwise270) => Point(-u.y, u.x)
  }

  lemma StepIsAffine(s: Step, p: Point, q: Point)
    ensures Difference(Backward(s, p), Backward(s, q)) == Linear(s, Difference(p, q))
  {
    hide Turn;
    match s
    case Crop(_, _, width, height) =>
      assert p.x * width - q.x * width == (p.x - q.x) * width;
      assert p.y * height - q.y * height == (p.y - q.y) * height;
    case Deskew(c, t) =>
      var u, v := Point(p.x - 0.5, p.y - 0.5), Point(q.x - 0.5, q.y - 0.5);
      TurnIsLinear(c, -t, u, v);
      assert Difference(u, v) == Difference(p, q);
    case _ =>
  }

  lemma CropScalesCross(width: real, height: real, u: Point, v: Point)
    ensures (u.x * width) * (v.y * height) - (u.y * height) * (v.x * width) == (width * height) * Cross(u, v)
  {
    assert (u.x * width) * (v.y * height) == (width * height) * (u.x * v.y);
    assert (u.y * height) * (v.x * width) == (width * height) * (u.y * v.x);
  }

  lemma StepScalesCross(s: Step, u: Point, v: Point)
    requires ValidStep(s)
    ensures Cross(Linear(s, u), Linear(s, v)) == Factor(s) * Cross(u, v)
  {
    hide Turn;
    match s
    case Crop(_, _, width, height) => CropScalesCross(width, height, u, v);
    case Deskew(c, t) => TurnKeepsCross(c, t, u, v);
    case _ => RigidScalesCross(s, u, v);
  }

  lemma RigidScalesCross(s: Step, u: Point, v: Point)
    requires !s.Crop? && !s.Deskew?
    ensures Cross(Linear(s, u), Linear(s, v)) == Factor(s) * Cross(u, v)
  {
    assert (-u.x) * v.y == -(u.x * v.y) && u.x * (-v.y) == -(u.x * v.y) && (-u.x) * (-v.y) == u.x * v.y;
    assert (-u.y) * v.x == -(u.y * v.x) && u.y * (-v.x) == -(u.y * v.x) && (-u.y) * (-v.x) == u.y * v.x;
  }

  /** Whatever the chain, a quadrilateral's signed area is scaled by its factors. */
  lemma UnfoldChain(steps: seq<Step>, p: Point)
    requires steps != []
    ensures BackwardAll(steps, p) == BackwardAll(steps[..|steps| - 1], Backward(steps[|steps| - 1], p))
    ensures Factors(steps) == Factors(steps[..|steps| - 1]) * Factor(steps[|steps| - 1])
  {
  }

  lemma {:induction false} ChainScalesCross(steps: seq<Step>, a: Point, b: Point, c: Point, d: Point)
    requires ValidSteps(steps)
    ensures Cross(Difference(BackwardAll(steps, c), BackwardAll(steps, a)), Difference(BackwardAll(steps, d), BackwardAll(steps, b)))
         == Factors(steps) * Cross(Difference(c, a), Difference(d, b))
  {
    hide Cross, Difference, Backward, Factor, Linear, ValidStep;
    if steps != [] {
      hide BackwardAll, Factors;
      var front, last := steps[..|steps| - 1], steps[|steps| - 1];
      UnfoldChain(steps, a);
      UnfoldChain(steps, b);
      UnfoldChain(steps, c);
      UnfoldChain(steps, d);
      StepIsAffine(last, c, a);
      StepIsAffine(last, d, b);
      StepScalesCross(last, Difference(c, a), Difference(d, b));
      ChainScalesCross(front, Backward(last, a), Backward(last, b), Backward(last, c), Backward(last, d));
      var inner := Cross(Difference(Backward(last, c), Backward(last, a)), Difference(Backward(last, d), Backward(last, b)));
      Regroup(Factors(front), Factor(last), Cross(Difference(c, a), Difference(d, b)), inner);
    }
  }

  lemma Regroup(a: real, b: real, c: real, product: real)
    requires product == b * c
    ensures a * product == (a * b) * c
  {
  }

  function RegionArea(r: Region): real {
    (r.right - r.left) * (r.bottom - r.top)
  }

  function MappedArea(steps: seq<Step>, r: Region): real {
    RegionArea(r) * CropAreas(steps)
  }

  lemma RegionDiagonals(r: Region)
    requires ValidRegion(r)
    ensures var k := Corners(r); Cross(Difference(k[2], k[0]), Difference(k[3], k[1])) == 2.0 * RegionArea(r)
    ensures RegionArea(r) > 0.0
  {
    PositiveProduct(r.right - r.left, r.bottom - r.top);
    assert (r.right - r.left) * (r.bottom - r.top) - (r.bottom - r.top) * (r.left - r.right) == 2.0 * RegionArea(r);
  }

  lemma ScaledArea(factors: real, areas: real, area: real, cross: real, scaled: real)
    requires areas > 0.0 && Abs(factors) == areas && area > 0.0 && cross == 2.0 * area && scaled == factors * cross
    ensures Abs(scaled) == 2.0 * (area * areas) && area * areas > 0.0
  {
    AbsProduct(factors, cross);
    PositiveProduct(area, areas);
    assert areas * cross == 2.0 * (area * areas);
  }

  /** The polygon a region has in the original image has the region's area times
      the areas of the crops, deskewed or not. */
  lemma AreasScaleByCrops(steps: seq<Step>, r: Region)
    requires ValidSteps(steps) && ValidRegion(r)
    ensures Abs(SignedDoubleArea(MapAll(steps, Corners(r)), 4)) == 2.0 * MappedArea(steps, r)
    ensures MappedArea(steps, r) > 0.0
  {
    hide Cross, Difference, BackwardAll, Factors, CropAreas, RegionArea, SignedDoubleArea, ValidStep, Abs;
    var k := Corners(r);
    var m := MapAll(steps, k);
    assert m == [m[0], m[1], m[2], m[3]];
    Diagonals(m[0], m[1], m[2], m[3]);
    ChainScalesCross(steps, k[0], k[1], k[2], k[3]);
    RegionDiagonals(r);
    FactorsAreCropAreas(steps);
    assert SignedDoubleArea(m, 4) == Factors(steps) * Cross(Difference(k[2], k[0]), Difference(k[3], k[1]));
    var cross := Cross(Difference(k[2], k[0]), Difference(k[3], k[1]));
    ScaledArea(Factors(steps), CropAreas(steps), RegionArea(r), cross, SignedDoubleArea(m, 4));
  }

  /** The corners of a region in the original image. */
  method OriginalPolygon(region: Region, chain: TransformChain) returns (r: Result<seq<Point>, GeometryError>)
    requires ValidRegion(region) && ValidSteps(chain.steps)
    ensures var mapped := MapAll(chain.steps, Corners(region));
            if exists i :: 0 <= i < 4 && !InSquare(mapped[i]) then r == Err(InvalidGeometry)
            else if 2.0 * MappedArea(chain.steps, region) <= EPSILON
            then r == Err(InvalidPolygon)
            else r == Ok(mapped)
    ensures !HasDeskew(chain.steps) ==> r != Err(InvalidGeometry)
    ensures r == Err(InvalidGeometry) <==> !StaysInside(chain.steps, region)
  {
    hide BackwardAll, SignedDoubleArea, MappedArea, ValidStep;
    CornersDecide(chain.steps, region);
    ghost var mapped := MapAll(chain.steps, Corners(region));
    AreasScaleByCrops(chain.steps, region);
    if !HasDeskew(chain.steps) {
      forall i | 0 <= i < 4 ensures InSquare(mapped[i]) {
        ChainStaysInside(chain.steps, Corners(region)[i]);
      }
    }
    var corners := Corners(region);
    var points: seq<Point> := [];
    for i := 0 to 4
      invariant points == mapped[..i]
      invariant forall k :: 0 <= k < i ==> InSquare(mapped[k])
    {
      var point := chain.MapToOriginal(corners[i].x, corners[i].y);
      if point.Err? {
        assert !InSquare(mapped[i]);
        return Err(InvalidGeometry);
      }
      points := points + [point.value];
    }
    assert points == mapped;
    if Abs(SignedDoubleArea(points, 4)) <= EPSILON {
      return Err(InvalidPolygon);
    }
    return Ok(points);
  }
}
