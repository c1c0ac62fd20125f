/**
 The integer circle: which points it plots, how far they are from the true circle,
 and that together they form one closed curve.
 */
module Circle {
  import opened Framebuffer

  type Point = (int, int)

  // --------------------------------------------------------------- the loop

  /** The octant points of the loop from `(x, y)` on, with the running error. */
  function OctantFrom(x: int, y: int, error: int): seq<Point>
    decreases x - y + 1
  {
    if x < y then []
    else
      [(x, y)]
      + if error < 0 then OctantFrom(x, y + 1, error + (2 * (y + 1) + 1))
        else OctantFrom(x - 1, y + 1, error + 2 * (y + 1 - (x - 1) + 1))
  }

  function Octant(radius: int): seq<Point> {
    OctantFrom(radius, 0, 1 - radius)
  }

  /** The eight mirror images of a point. */
  function Eight(p: Point): set<Point> {
    var (x, y) := p;
    {(x, y), (y, x), (-x, y), (-y, x), (-x, -y), (-y, -x), (x, -y), (y, -x)}
  }

  /** A pixel of the circle, seen from its centre. */
  ghost predicate OnCircle(octant: seq<Point>, p: Point) {
    exists i :: 0 <= i < |octant| && p in Eight(octant[i])
  }

  ghost function CirclePixels(octant: seq<Point>, cx: int, cy: int): iset<Point> {
    iset p: Point | OnCircle(octant, (p.0 - cx, p.1 - cy))
  }

  ghost function EightAt(p: Point, cx: int, cy: int): iset<Point> {
    iset q: Point | (q.0 - cx, q.1 - cy) in Eight(p)
  }

  function Abs(n: int): int {
    if n < 0 then -n else n
  }

  /** Mirror images are the points with the same two coordinates up to sign and order. */
  lemma EightMeans(p: Point, q: Point)
    ensures q in Eight(p) <==> (Abs(q.0) == Abs(p.0) && Abs(q.1) == Abs(p.1)) || (Abs(q.0) == Abs(p.1) && Abs(q.1) == Abs(p.0))
  {
  }

  /** The next octant point's eight images, then those of the rest. */
  lemma OctantStep(x: int, y: int, error: int, cx: int, cy: int)
    requires x >= y
    ensures CirclePixels(OctantFrom(x, y, error), cx, cy)
            == EightAt((x, y), cx, cy)
               + CirclePixels(if error < 0 then OctantFrom(x, y + 1, error + (2 * (y + 1) + 1))
                              else OctantFrom(x - 1, y + 1, error + 2 * (y + 1 - (x - 1) + 1)), cx, cy)
  {
    hide Eight;
    var octant := OctantFrom(x, y, error);
    var rest := octant[1..];
    forall p: Point ensures OnCircle(octant, p) <==> p in Eight((x, y)) || OnCircle(rest, p) {
      FirstOrRest(octant, p);
    }
  }

  lemma FirstOrRest(octant: seq<Point>, p: Point)
    requires octant != []
    ensures OnCircle(octant, p) <==> p in Eight(octant[0]) || OnCircle(octant[1..], p)
  {
    hide Eight;
    var rest := octant[1..];
    if OnCircle(octant, p) && p !in Eight(octant[0]) {
      var i :| 0 <= i < |octant| && p in Eight(octant[i]);
      assert rest[i - 1] == octant[i];
    }
    if OnCircle(rest, p) {
      var i :| 0 <= i < |rest| && p in Eight(rest[i]);
      assert octant[i + 1] == rest[i];
    }
  }

  /** One more point on top of what has been painted. */
  method Plot(file: array<bv8>, xres: nat, yres: nat, x: int, y: int, r: bv8, g: bv8, b: bv8,
              ghost img: seq<bv16>, ghost done: iset<Point>)
    requires xres > 0 && file.Length == 2 * (xres * yres)
    requires Words(file[..]) == Paint(img, xres, done, MakePixel(r, g, b))
    modifies file
    ensures Words(file[..]) == Paint(img, xres, done + iset{(x, y)}, MakePixel(r, g, b))
  {
    hide Words, MakePixel, Paint;
    DrawPoint(file, xres, yres, x, y, r, g, b);
    PaintTwice(img, xres, done, iset{(x, y)}, MakePixel(r, g, b));
  }

  /** One pass of the loop body: the eight points of one octant point. */
  method DrawEight(file: array<bv8>, xres: nat, yres: nat, cx: int, cy: int, x: int, y: int, r: bv8, g: bv8, b: bv8)
    requires xres > 0 && file.Length == 2 * (xres * yres)
    modifies file
    ensures Words(file[..]) == Paint(old(Words(file[..])), xres, EightAt((x, y), cx, cy), MakePixel(r, g, b))
  {
    hide Words, MakePixel, Paint, EightAt;
    ghost var img := Words(file[..]);
    ghost var s0: iset<Point> := iset{};
    PaintNothing(img, xres, MakePixel(r, g, b));
    Plot(file, xres, yres, x + cx, y + cy, r, g, b, img, s0);
    ghost var s1 := s0 + iset{(x + cx, y + cy)};
    Plot(file, xres, yres, y + cx, x + cy, r, g, b, img, s1);
    ghost var s2 := s1 + iset{(y + cx, x + cy)};
    Plot(file, xres, yres, -x + cx, y + cy, r, g, b, img, s2);
    ghost var s3 := s2 + iset{(-x + cx, y + cy)};
    Plot(file, xres, yres, -y + cx, x + cy, r, g, b, img, s3);
    ghost var s4 := s3 + iset{(-y + cx, x + cy)};
    Plot(file, xres, yres, -x + cx, -y + cy, r, g, b, img, s4);
    ghost var s5 := s4 + iset{(-x + cx, -y + cy)};
    Plot(file, xres, yres, -y + cx, -x + cy, r, g, b, img, s5);
    ghost var s6 := s5 + iset{(-y + cx, -x + cy)};
    Plot(file, xres, yres, x + cx, -y + cy, r, g, b, img, s6);
    ghost var s7 := s6 + iset{(x + cx, -y + cy)};
    Plot(file, xres, yres, y + cx, -x + cy, r, g, b, img, s7);
    TheEight(x, y, cx, cy);
    assert s7 + iset{(y + cx, -x + cy)} == EightAt((x, y), cx, cy);
  }

  lemma TheEight(x: int, y: int, cx: int, cy: int)
    ensures EightAt((x, y), cx, cy) ==
            iset{(x + cx, y + cy), (y + cx, x + cy), (-x + cx, y + cy), (-y + cx, x + cy),
                 (-x + cx, -y + cy), (-y + cx, -x + cy), (x + cx, -y + cy), (y + cx, -x + cy)}
  {
  }

  /** `drawcircle`: paints exactly the on-screen pixels of the circle. */
  method DrawCircle(file: array<bv8>, xres: nat, yres: nat, cx: int, cy: int, radius: int, r: bv8, g: bv8, b: bv8)
    requires xres > 0 && file.Length == 2 * (xres * yres)
    modifies file
    ensures Words(file[..]) == Paint(old(Words(file[..])), xres, CirclePixels(Octant(radius), cx, cy), MakePixel(r, g, b))
  {
    hide Words, MakePixel, Paint, EightAt, CirclePixels, OctantFrom;
    ghost var img, c := Words(file[..]), MakePixel(r, g, b);
    ghost var done: iset<Point> := iset{};
    var x, y := radius, 0;
    var radiusError := 1 - x;
    PaintNothing(img, xres, c);
    while x >= y
      invariant Words(file[..]) == Paint(img, xres, done, c)
      invariant done + CirclePixels(OctantFrom(x, y, radiusError), cx, cy) == CirclePixels(Octant(radius), cx, cy)
      decreases x - y + 1
    {
      OctantStep(x, y, radiusError, cx, cy);
      DrawEight(file, xres, yres, cx, cy, x, y, r, g, b);
      PaintTwice(img, xres, done, EightAt((x, y), cx, cy), c);
      done := done + EightAt((x, y), cx, cy);
      y := y + 1;
      if radiusError < 0 {
        radiusError := radiusError + (2 * y + 1);
      } else {
        x := x - 1;
        radiusError := radiusError + 2 * (y - x + 1);
      }
    }
    NothingBelowDiagonal(x, y, radiusError, cx, cy);
    assert done == CirclePixels(Octant(radius), cx, cy);
  }

  lemma NothingBelowDiagonal(x: int, y: int, error: int, cx: int, cy: int)
    requires x < y
    ensures CirclePixels(OctantFrom(x, y, error), cx, cy) == iset{}
  {
  }

  // --------------------------------------------------------------- accuracy

  /** What the running error stands for at the head of the loop. */
  predicate ErrorIs(x: int, y: int, error: int, r: int) {
    error == (x - 1) * (x - 1) + (y + 1) * (y + 1) - r * r + r - 1
  }

  function Excess(x: int, y: int, r: int): int {
    x * x + y * y - r * r
  }

  /** The loop's invariant: the closed form of the error, and the point's distance. */
  predicate Tracks(x: int, y: int, error: int, r: int) {
    && ErrorIs(x, y, error, r) && 0 <= y && x <= r
    && (x >= y ==> -(r - 1) <= Excess(x, y, r) <= r - 1)
  }

  lemma SquareStep(x: int)
    ensures (x + 1) * (x + 1) == x * x + 2 * x + 1
    ensures (x - 1) * (x - 1) == x * x - 2 * x + 1
  {
  }

  lemma StepTracks(x: int, y: int, error: int, r: int)
    requires r >= 1 && x >= y && Tracks(x, y, error, r)
    ensures error < 0 ==> Tracks(x, y + 1, error + (2 * (y + 1) + 1), r)
    ensures error >= 0 ==> Tracks(x - 1, y + 1, error + 2 * (y + 1 - (x - 1) + 1), r)
  {
    SquareStep(x);
    SquareStep(y);
    SquareStep(x - 1);
    SquareStep(y + 1);
  }

  /** One octant point per row, each a neighbour of the last, ending at the diagonal. */
  ghost predicate IsArc(pts: seq<Point>, x: int, y: int, r: int) {
    && (x >= y ==> pts != [] && pts[0] == (x, y))
    && (forall i :: 0 <= i < |pts| ==>
          && pts[i].1 == y + i && 0 <= pts[i].1 <= pts[i].0 <= r
          && -(r - 1) <= Excess(pts[i].0, pts[i].1, r) <= r - 1)
    && (forall i :: 0 <= i < |pts| - 1 ==> pts[i].0 - 1 <= pts[i + 1].0 <= pts[i].0)
    && (pts != [] ==> var (u, v) := pts[|pts| - 1]; 0 <= u - v <= 1)
  }

  lemma {:induction false} OctantIsArc(x: int, y: int, error: int, r: int)
    requires r >= 1 && Tracks(x, y, error, r)
    ensures IsArc(OctantFrom(x, y, error), x, y, r)
    decreases x - y + 1
  {
    hide Excess, Tracks, IsArc;
    if x >= y {
      StepTracks(x, y, error, r);
      TrackedPoint(x, y, error, r);
      if error < 0 {
        OctantIsArc(x, y + 1, error + (2 * (y + 1) + 1), r);
        ArcCons(x, y, x, OctantFrom(x, y + 1, error + (2 * (y + 1) + 1)), r);
      } else {
        OctantIsArc(x - 1, y + 1, error + 2 * (y + 1 - (x - 1) + 1), r);
        ArcCons(x, y, x - 1, OctantFrom(x - 1, y + 1, error + 2 * (y + 1 - (x - 1) + 1)), r);
      }
    } else {
      EmptyArc(x, y, r);
    }
  }

  lemma EmptyArc(x: int, y: int, r: int)
    requires x < y
    ensures IsArc([], x, y, r)
  {
  }

  lemma ArcCons(x: int, y: int, x': int, rest: seq<Point>, r: int)
    requires 0 <= y <= x <= r && -(r - 1) <= Excess(x, y, r) <= r - 1
    requires (x' == x || x' == x - 1) && IsArc(rest, x', y + 1, r)
    requires rest == [] <==> x' < y + 1
    ensures IsArc([(x, y)] + rest, x, y, r)
  {
    hide Excess;
    var all := [(x, y)] + rest;
    assert forall i :: 1 <= i < |all| ==> all[i] == rest[i - 1];
    assert rest != [] ==> all[|all| - 1] == rest[|rest| - 1];
    assert rest != [] ==> rest[0] == (x', y + 1);
  }

  lemma TrackedPoint(x: int, y: int, error: int, r: int)
    requires Tracks(x, y, error, r) && x >= y
    ensures 0 <= y <= x <= r && -(r - 1) <= Excess(x, y, r) <= r - 1
  {
  }

  lemma OctantOfRadius(r: int)
    requires r >= 1
    ensures IsArc(Octant(r), r, 0, r)
  {
    assert (r - 1) * (r - 1) == r * r - 2 * r + 1;
    assert Tracks(r, 0, 1 - r, r);
    OctantIsArc(r, 0, 1 - r, r);
  }

  /** Strictly less than half a pixel inside or outside the true circle. */
  predicate WithinHalfPixel(p: Point, r: int) {
    (2 * r - 1) * (2 * r - 1) < 4 * (p.0 * p.0 + p.1 * p.1) < (2 * r + 1) * (2 * r + 1)
  }

  lemma HalfPixel(x: int, y: int, r: int)
    requires -(r - 1) <= Excess(x, y, r) <= r - 1
    ensures WithinHalfPixel((x, y), r)
  {
    assert (2 * r - 1) * (2 * r - 1) == 4 * (r * r) - 4 * r + 1;
    assert (2 * r + 1) * (2 * r + 1) == 4 * (r * r) + 4 * r + 1;
  }

  lemma EightSameDistance(p: Point, q: Point)
    requires q in Eight(p)
    ensures q.0 * q.0 + q.1 * q.1 == p.0 * p.0 + p.1 * p.1
  {
    assert forall x: int :: -x * -x == x * x;
  }

  /**
   For every radius from 1 on, each pixel of the circle lies strictly within half a
   pixel of it; for radius 0 only the centre is drawn and below that nothing.
   */
  lemma PixelsAreClose(r: int, p: Point)
    requires OnCircle(Octant(r), p)
    ensures r >= 0
    ensures r >= 1 ==> WithinHalfPixel(p, r)
    ensures r == 0 ==> p == (0, 0)
  {
    var i :| 0 <= i < |Octant(r)| && p in Eight(Octant(r)[i]);
    if r >= 1 {
      OctantOfRadius(r);
      var q := Octant(r)[i];
      HalfPixel(q.0, q.1, r);
      EightSameDistance(q, p);
    } else if r == 0 {
      assert OctantFrom(-1, 1, 7) == [];
    }
  }

  // -------------------------------------------------------------- the curve

  predicate Near(p: Point, q: Point) {
    -1 <= p.0 - q.0 <= 1 && -1 <= p.1 - q.1 <= 1
  }

  predicate Path(pts: seq<Point>) {
    forall i :: 0 <= i < |pts| - 1 ==> Near(pts[i], pts[i + 1])
  }

  /** Quarter turn about the centre. */
  function Turn(p: Point): Point {
    (-p.1, p.0)
  }

  function TurnAll(pts: seq<Point>): (out: seq<Point>)
    ensures |out| == |pts|
  {
    seq(|pts|, i requires 0 <= i < |pts| => Turn(pts[i]))
  }

  /** The octant mirrored at the diagonal, walked the other way. */
  function Mirror(pts: seq<Point>): (out: seq<Point>)
    ensures |out| == |pts|
  {
    seq(|pts|, i requires 0 <= i < |pts| => (pts[|pts| - 1 - i].1, pts[|pts| - 1 - i].0))
  }

  function Quarter(r: int): seq<Point> {
    Octant(r) + Mirror(Octant(r))
  }

  /** The circle as one walk around the centre. */
  function Walk(r: int): seq<Point> {
    var q := Quarter(r);
    q + TurnAll(q) + TurnAll(TurnAll(q)) + TurnAll(TurnAll(TurnAll(q)))
  }

  lemma PathJoin(a: seq<Point>, b: seq<Point>)
    requires a != [] && b != [] && Path(a) && Path(b) && Near(a[|a| - 1], b[0])
    ensures Path(a + b)
  {
  }

  lemma TurnKeepsPath(a: seq<Point>)
    requires Path(a)
    ensures Path(TurnAll(a))
  {
  }

  lemma QuarterIsPath(r: int)
    requires r >= 1
    ensures var q := Quarter(r);
            q != [] && Path(q) && q[0] == (r, 0) && q[|q| - 1] == (0, r)
  {
    OctantOfRadius(r);
    var o, m := Octant(r), Mirror(Octant(r));
    assert Path(o);
    forall i | 0 <= i < |m| - 1 ensures Near(m[i], m[i + 1]) {
      var j := |o| - 2 - i;
      assert m[i] == (o[j + 1].1, o[j + 1].0) && m[i + 1] == (o[j].1, o[j].0);
    }
    PathJoin(o, m);
  }

  lemma WalkIsPath(r: int)
    requires r >= 1
    ensures var w := Walk(r);
            w != [] && Path(w) && w[0] == (r, 0) && w[|w| - 1] == (r, 0)
  {
    hide Path;
    QuarterIsPath(r);
    var q := Quarter(r);
    var t1 := TurnAll(q);
    var t2 := TurnAll(t1);
    var t3 := TurnAll(t2);
    TurnKeepsPath(q);
    TurnKeepsPath(t1);
    TurnKeepsPath(t2);
    PathJoin(q, t1);
    PathJoin(q + t1, t2);
    PathJoin(q + t1 + t2, t3);
  }

  ghost predicate Visits(pts: seq<Point>, p: Point) {
    exists i :: 0 <= i < |pts| && pts[i] == p
  }

  lemma TurnVisits(pts: seq<Point>, p: Point)
    ensures Visits(TurnAll(pts), p) <==> Visits(pts, (p.1, -p.0))
  {
    var back := (p.1, -p.0);
    if Visits(TurnAll(pts), p) {
      var i :| 0 <= i < |pts| && TurnAll(pts)[i] == p;
      assert pts[i] == back;
    }
    if Visits(pts, back) {
      var i :| 0 <= i < |pts| && pts[i] == back;
      assert TurnAll(pts)[i] == p;
    }
  }

  lemma JoinVisits(a: seq<Point>, b: seq<Point>, p: Point)
    ensures Visits(a + b, p) <==> Visits(a, p) || Visits(b, p)
  {
    if Visits(a, p) {
      var i :| 0 <= i < |a| && a[i] == p;
      assert (a + b)[i] == p;
    }
    if Visits(b, p) {
      var i :| 0 <= i < |b| && b[i] == p;
      assert (a + b)[|a| + i] == p;
    }
  }

  lemma MirrorVisits(o: seq<Point>, p: Point)
    ensures Visits(Mirror(o), p) <==> Visits(o, (p.1, p.0))
  {
    if Visits(Mirror(o), p) {
      var i :| 0 <= i < |o| && Mirror(o)[i] == p;
      assert o[|o| - 1 - i] == (p.1, p.0);
    }
    if Visits(o, (p.1, p.0)) {
      var i :| 0 <= i < |o| && o[i] == (p.1, p.0);
      assert Mirror(o)[|o| - 1 - i] == p;
    }
  }

  lemma OnCircleIsVisited(o: seq<Point>, p: Point)
    ensures OnCircle(o, p) <==> exists q :: q in Eight(p) && Visits(o, q)
  {
    hide Eight;
    if OnCircle(o, p) {
      var i :| 0 <= i < |o| && p in Eight(o[i]);
      EightIsMutual(p, o[i]);
      assert o[i] in Eight(p) && Visits(o, o[i]);
    }
    if exists q :: q in Eight(p) && Visits(o, q) {
      var q :| q in Eight(p) && Visits(o, q);
      var i :| 0 <= i < |o| && o[i] == q;
      EightIsMutual(p, o[i]);
      assert p in Eight(o[i]);
    }
  }

  lemma EightIsMutual(p: Point, q: Point)
    ensures q in Eight(p) <==> p in Eight(q)
  {
    hide Eight;
    EightMeans(p, q);
    EightMeans(q, p);
  }

  /** The walk goes through exactly the pixels of the circle. */
  lemma WalkVisitsCircle(r: int, p: Point)
    ensures Visits(Walk(r), p) <==> OnCircle(Octant(r), p)
  {
    hide Visits, OnCircle;
    var o, q := Octant(r), Quarter(r);
    var t1 := TurnAll(q);
    var t2 := TurnAll(t1);
    var t3 := TurnAll(t2);
    var (x, y) := p;
    JoinVisits(q + t1 + t2, t3, p);
    JoinVisits(q + t1, t2, p);
    JoinVisits(q, t1, p);
    TurnVisits(q, p);
    TurnVisits(t1, p);
    TurnVisits(q, (y, -x));
    TurnVisits(t2, p);
    TurnVisits(t1, (y, -x));
    TurnVisits(q, (-x, -y));
    QuarterVisits(r, (x, y));
    QuarterVisits(r, (y, -x));
    QuarterVisits(r, (-x, -y));
    QuarterVisits(r, (-y, x));
    OnCircleIsVisited(o, p);
  }

  lemma QuarterVisits(r: int, p: Point)
    ensures Visits(Quarter(r), p) <==> Visits(Octant(r), p) || Visits(Octant(r), (p.1, p.0))
  {
    JoinVisits(Octant(r), Mirror(Octant(r)), p);
    MirrorVisits(Octant(r), p);
  }

  /**
   The circle is a closed curve without gaps: one walk goes through exactly its
   pixels, each step to one of the eight neighbours, and ends where it began.
   */
  lemma CircleIsClosedCurve(r: int)
    requires r >= 1
    ensures var w := Walk(r);
            && w != [] && Path(w) && w[0] == w[|w| - 1] == (r, 0)
            && forall p :: Visits(w, p) <==> OnCircle(Octant(r), p)
  {
    hide Path, Visits, OnCircle, Walk;
    WalkIsPath(r);
    forall p ensures Visits(Walk(r), p) <==> OnCircle(Octant(r), p) {
      WalkVisitsCircle(r, p);
    }
  }

  /** The pixel set is its own image under all eight reflections. */
  lemma CircleIsSymmetric(r: int, p: Point, q: Point)
    requires OnCircle(Octant(r), p) && q in Eight(p)
    ensures OnCircle(Octant(r), q)
  {
    hide Eight, Octant;
    var i :| 0 <= i < |Octant(r)| && p in Eight(Octant(r)[i]);
    EightMeans(Octant(r)[i], p);
    EightMeans(p, q);
    EightMeans(Octant(r)[i], q);
    assert q in Eight(Octant(r)[i]);
  }

  // ------------------------------------------------------- the exact pixels

  /** `x` is the least column of row `y` whose point is outside the circle of square radius `r * r - r`. */
  predicate Innermost(x: int, y: int, r: int) {
    (x - 1) * (x - 1) + y * y <= r * r - r < x * x + y * y
  }

  lemma StepInnermost(x: int, y: int, error: int, r: int)
    requires r >= 1 && Tracks(x, y, error, r) && x >= y && Innermost(x, y, r)
    ensures error < 0 ==> Innermost(x, y + 1, r)
    ensures error >= 0 && x - 1 >= y + 1 ==> Innermost(x - 1, y + 1, r)
    ensures error >= 0 ==> (x - 1) * (x - 1) + (y + 1) * (y + 1) > r * r - r
  {
    SquareStep(x);
    SquareStep(y);
    SquareStep(x - 1);
  }

  lemma SquareGrows(a: int, b: int)
    requires 0 <= a <= b
    ensures a * a <= b * b
  {
    assert b * b - a * a == (b - a) * (b + a);
  }

  /** A row has at most one such column. */
  lemma InnermostOnce(x: int, x': int, y: int, r: int)
    requires 0 <= x && 0 <= x' && Innermost(x, y, r) && Innermost(x', y, r)
    ensures x == x'
  {
    if x < x' {
      SquareGrows(x, x' - 1);
    }
    if x' < x {
      SquareGrows(x', x - 1);
    }
  }

  /** Once a point on or inside the diagonal is outside the circle, no octant point follows. */
  lemma NoneBeyond(x: int, y: int, r: int, x': int, y': int)
    requires 0 <= x < y <= y' <= x' && x * x + y * y > r * r - r
    ensures !Innermost(x', y', r)
  {
    SquareGrows(x, x' - 1);
    SquareGrows(y, y');
  }

  lemma NoneFrom(x: int, y: int, r: int, p: Point)
    requires 0 <= x < y && x * x + y * y > r * r - r
    ensures !(y <= p.1 <= p.0 && Innermost(p.0, p.1, r))
  {
    hide Innermost;
    if y <= p.1 <= p.0 {
      NoneBeyond(x, y, r, p.0, p.1);
    }
  }

  lemma RowOf(x: int, y: int, r: int, p: Point)
    requires 0 <= y <= x && Innermost(x, y, r)
    ensures p.1 == y && y <= p.0 ==> (Innermost(p.0, p.1, r) <==> p == (x, y))
  {
    hide Innermost;
    if p.1 == y && y <= p.0 && Innermost(p.0, p.1, r) {
      InnermostOnce(x, p.0, y, r);
    }
  }

  lemma NothingVisited(p: Point)
    ensures !Visits([], p)
  {
  }

  lemma AfterInnermost(x: int, y: int, r: int)
    requires r >= 1 && 0 <= y <= x && Innermost(x, y, r)
    ensures x >= 1
  {
    assert r * (r - 1) >= 0;
  }

  lemma OutsideIsInnermost(x: int, y: int, r: int)
    ensures Innermost(x, y, r) ==> x * x + y * y > r * r - r
  {
  }

  lemma VisitsFirst(p: Point, rest: seq<Point>, q: Point)
    ensures Visits([p] + rest, q) <==> q == p || Visits(rest, q)
  {
    JoinVisits([p], rest, q);
    assert [p][0] == p;
  }

  /** From `(x, y)` on the loop plots exactly the innermost points of the octant. */
  lemma {:induction false} OctantIsExact(x: int, y: int, error: int, r: int, p: Point)
    requires r >= 1 && Tracks(x, y, error, r) && x >= 0
    requires x >= y ==> Innermost(x, y, r)
    requires x < y ==> x * x + y * y > r * r - r
    ensures Visits(OctantFrom(x, y, error), p) <==> y <= p.1 <= p.0 && Innermost(p.0, p.1, r)
    decreases x - y + 1
  {
    hide Tracks, Visits, Innermost;
    if x < y {
      NothingVisited(p);
      NoneFrom(x, y, r, p);
    } else {
      StepTracks(x, y, error, r);
      StepInnermost(x, y, error, r);
      TrackedPoint(x, y, error, r);
      RowOf(x, y, r, p);
      AfterInnermost(x, y, r);
      OutsideIsInnermost(x, y + 1, r);
      if error < 0 {
        OctantIsExact(x, y + 1, error + (2 * (y + 1) + 1), r, p);
        VisitsFirst((x, y), OctantFrom(x, y + 1, error + (2 * (y + 1) + 1)), p);
      } else {
        OctantIsExact(x - 1, y + 1, error + 2 * (y + 1 - (x - 1) + 1), r, p);
        VisitsFirst((x, y), OctantFrom(x - 1, y + 1, error + 2 * (y + 1 - (x - 1) + 1)), p);
      }
    }
  }

  function Larger(p: Point): int {
    if Abs(p.0) < Abs(p.1) then Abs(p.1) else Abs(p.0)
  }

  function Smaller(p: Point): int {
    if Abs(p.0) < Abs(p.1) then Abs(p.0) else Abs(p.1)
  }

  lemma SortedImage(p: Point, q: Point)
    ensures (Larger(p), Smaller(p)) in Eight(p)
    ensures q in Eight(p) && 0 <= q.1 <= q.0 ==> q == (Larger(p), Smaller(p))
    ensures 0 <= Smaller(p) <= Larger(p)
  {
    hide Eight;
    EightMeans(p, q);
    EightMeans(p, (Larger(p), Smaller(p)));
  }

  lemma OctantExactly(r: int, p: Point)
    requires r >= 1
    ensures Visits(Octant(r), p) <==> 0 <= p.1 <= p.0 && Innermost(p.0, p.1, r)
  {
    hide Visits;
    SquareStep(r);
    assert r * r >= r;
    OctantIsExact(r, 0, 1 - r, r, p);
  }

  /**
   The circle in closed form: for every radius from 1 on, a point is a pixel exactly
   when, with its larger coordinate as the column and its smaller one as the row, it
   is the first of its row outside the square radius `r * r - r`.
   */
  lemma CircleIsExactly(r: int, p: Point)
    requires r >= 1
    ensures OnCircle(Octant(r), p) <==> Innermost(Larger(p), Smaller(p), r)
  {
    hide Eight, Visits, OnCircle, Octant, Innermost, Larger, Smaller;
    OnCircleIsVisited(Octant(r), p);
    forall q ensures q in Eight(p) && Visits(Octant(r), q) <==> q == (Larger(p), Smaller(p)) && Innermost(q.0, q.1, r) {
      OctantExactly(r, q);
      SortedImage(p, q);
    }
  }
}
