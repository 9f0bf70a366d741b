// The edge-connected near-white cutout of backend/app/services/creative_rendering.py.
module Cutout {
  import opened Basics
  import opened Wrappers

  type Sample = n: int | 0 <= n < 256

  datatype Pixel = Pixel(red: Sample, green: Sample, blue: Sample, alpha: Sample)

  datatype Position = At(x: int, y: int)

  datatype Reason =
    | OpaqueBackgroundNotVerified
    | EdgeTouchingForeground
    | InsufficientRetainedForeground
    | InsufficientConfidentBackground

  datatype Metadata = Metadata(
    applied: bool,
    coverage: real,
    foregroundRatio: real,
    widthRatio: real,
    heightRatio: real,
    centrallyBounded: bool,
    reason: Option<Reason>)

  // The spread test of the source is implied: samples from 248 to 255 differ by at most 7.
  predicate NearWhite(p: Pixel): (white: bool)
    ensures white <==> p.alpha > 245 && p.red >= 248 && p.green >= 248 && p.blue >= 248
  {
    && p.alpha > 245
    && Min(p.red, Min(p.green, p.blue)) >= 248
    && Max(p.red, Max(p.green, p.blue)) - Min(p.red, Min(p.green, p.blue)) <= 8
  }

  // ---------- What the flood fill is for: pixels joined to the border ----------

  ghost predicate InGrid(w: int, h: int, p: Position) {
    0 <= p.x < w && 0 <= p.y < h
  }

  ghost predicate OnBorder(w: int, h: int, p: Position) {
    InGrid(w, h, p) && (p.x == 0 || p.x == w - 1 || p.y == 0 || p.y == h - 1)
  }

  ghost predicate Adjacent(p: Position, q: Position) {
    (p.x == q.x && (p.y == q.y + 1 || q.y == p.y + 1)) || (p.y == q.y && (p.x == q.x + 1 || q.x == p.x + 1))
  }

  // A 4-neighbour path of near-white pixels that starts on the image border.
  ghost predicate IsPath(w: int, h: int, white: set<Position>, path: seq<Position>) {
    && |path| > 0
    && OnBorder(w, h, path[0])
    && (forall i :: 0 <= i < |path| ==> path[i] in white)
    && (forall i :: 0 < i < |path| ==> Adjacent(path[i - 1], path[i]))
  }

  ghost predicate Joined(w: int, h: int, white: set<Position>, p: Position) {
    exists path :: IsPath(w, h, white, path) && path[|path| - 1] == p
  }

  ghost function Grid(w: int, h: int): (grid: set<Position>)
    ensures forall p :: p in grid <==> InGrid(w, h, p)
  {
    set x: int, y: int | 0 <= x < w && 0 <= y < h :: At(x, y)
  }

  ghost function Whites(px: array2<Pixel>): (white: set<Position>)
    reads px
    ensures white <= Grid(px.Length0, px.Length1)
    ensures forall p :: p in white <==> InGrid(px.Length0, px.Length1, p) && NearWhite(px[p.x, p.y])
  {
    set x: int, y: int | 0 <= x < px.Length0 && 0 <= y < px.Length1 && NearWhite(px[x, y]) :: At(x, y)
  }

  lemma JoinedBorder(w: int, h: int, white: set<Position>, p: Position)
    requires OnBorder(w, h, p) && p in white
    ensures Joined(w, h, white, p)
  {
    assert IsPath(w, h, white, [p]);
  }

  lemma JoinedNeighbour(w: int, h: int, white: set<Position>, p: Position, q: Position)
    requires Joined(w, h, white, p) && Adjacent(p, q) && q in white
    ensures Joined(w, h, white, q)
  {
    var path :| IsPath(w, h, white, path) && path[|path| - 1] == p;
    assert IsPath(w, h, white, path + [q]);
  }

  // A set that holds the white border and is closed under white neighbours holds every joined pixel.
  lemma {:induction false} ClosedHoldsPath(
    w: int, h: int, white: set<Position>, visited: set<Position>, path: seq<Position>)
    requires IsPath(w, h, white, path)
    requires forall p :: OnBorder(w, h, p) && p in white ==> p in visited
    requires forall p, q :: p in visited && q in white && Adjacent(p, q) ==> q in visited
    ensures path[|path| - 1] in visited
  {
    if |path| > 1 {
      var front := path[..|path| - 1];
      assert IsPath(w, h, white, front);
      ClosedHoldsPath(w, h, white, visited, front);
      assert Adjacent(front[|front| - 1], path[|path| - 1]);
    }
  }

  // ---------- The breadth-first fill ----------

  function Neighbours(width: nat, height: nat, p: Position): (near: seq<Position>)
    requires 0 <= p.x < width && 0 <= p.y < height
    ensures forall q :: q in near <==> InGrid(width, height, q) && Adjacent(p, q)
  {
    var left := if p.x > 0 then [At(p.x - 1, p.y)] else [];
    var right := if p.x + 1 < width then [At(p.x + 1, p.y)] else [];
    var up := if p.y > 0 then [At(p.x, p.y - 1)] else [];
    var down := if p.y + 1 < height then [At(p.x, p.y + 1)] else [];
    left + right + up + down
  }

  // Everything visited is joined, and nothing that must still be visited has been forgotten.
  ghost predicate FloodInvariant(w: int, h: int, white: set<Position>, visited: set<Position>, edge: seq<Position>) {
    && visited <= white
    && (forall p :: p in visited ==> Joined(w, h, white, p))
    && (forall p :: p in edge ==> InGrid(w, h, p) && (p in white ==> Joined(w, h, white, p)))
    && (forall p :: OnBorder(w, h, p) && p in white ==> p in visited || p in edge)
    && (forall p, q :: p in visited && q in white && Adjacent(p, q) ==> q in visited || q in edge)
  }

  lemma FloodVisits(w: nat, h: nat, white: set<Position>, visited: set<Position>, edge: seq<Position>)
    requires FloodInvariant(w, h, white, visited, edge) && white <= Grid(w, h)
    requires edge != [] && edge[0] in white
    ensures FloodInvariant(w, h, white, visited + {edge[0]}, edge[1..] + Neighbours(w, h, edge[0]))
  {
    var p, rest, near := edge[0], edge[1..], Neighbours(w, h, edge[0]);
    assert edge == [p] + rest;
    forall q | q in near && q in white ensures Joined(w, h, white, q) {
      JoinedNeighbour(w, h, white, p, q);
    }
    forall q | q in rest + near ensures q in rest || q in near {}
    forall a, b | a in visited + {p} && b in white && Adjacent(a, b)
      ensures b in visited + {p} || b in rest + near
    {
      assert a == p ==> b in near;
    }
  }

  lemma FloodSkips(w: nat, h: nat, white: set<Position>, visited: set<Position>, edge: seq<Position>)
    requires FloodInvariant(w, h, white, visited, edge)
    requires edge != [] && (edge[0] in visited || edge[0] !in white)
    ensures FloodInvariant(w, h, white, visited, edge[1..])
  {
    assert edge == [edge[0]] + edge[1..];
  }

  lemma FloodFinished(w: nat, h: nat, white: set<Position>, visited: set<Position>)
    requires FloodInvariant(w, h, white, visited, [])
    ensures forall p :: p in visited <==> Joined(w, h, white, p)
  {
    forall p | Joined(w, h, white, p) ensures p in visited {
      var path :| IsPath(w, h, white, path) && path[|path| - 1] == p;
      ClosedHoldsPath(w, h, white, visited, path);
    }
  }

  // The deque as it stands before the first pop: every border pixel, corners twice.
  method BorderQueue(width: nat, height: nat) returns (edge: seq<Position>)
    requires width > 0 && height > 0
    ensures forall p :: p in edge <==> OnBorder(width, height, p)
  {
    edge := [];
    for x := 0 to width
      invariant forall p :: p in edge <==> InGrid(width, height, p) && p.x < x && (p.y == 0 || p.y == height - 1)
    {
      edge := edge + [At(x, 0), At(x, height - 1)];
    }
    ghost var rows := edge;
    for y := 1 to Max(1, height - 1)
      invariant forall p :: p in edge <==>
        p in rows || (1 <= p.y < y && InGrid(width, height, p) && (p.x == 0 || p.x == width - 1))
    {
      edge := edge + [At(0, y), At(width - 1, y)];
    }
  }

  method Flood(px: array2<Pixel>) returns (visited: set<Position>)
    requires px.Length0 > 0 && px.Length1 > 0
    ensures visited <= Whites(px)
    ensures forall p :: p in visited <==> Joined(px.Length0, px.Length1, Whites(px), p)
  {
    var width, height := px.Length0, px.Length1;
    ghost var white := Whites(px);
    var edge := BorderQueue(width, height);
    visited := {};
    forall p | p in edge && p in white ensures Joined(width, height, white, p) {
      JoinedBorder(width, height, white, p);
    }
    while edge != []
      invariant FloodInvariant(width, height, white, visited, edge)
      decreases white - visited, |edge|
    {
      var p := edge[0];
      if p in visited || !NearWhite(px[p.x, p.y]) {
        FloodSkips(width, height, white, visited, edge);
        edge := edge[1..];
      } else {
        FloodVisits(width, height, white, visited, edge);
        assert p in white - visited;
        edge := edge[1..] + Neighbours(width, height, p);
        visited := visited + {p};
      }
    }
    FloodFinished(width, height, white, visited);
  }

  // ---------- What the decision is about: the set of foreground pixels ----------

  ghost function Foreground(w: int, h: int, white: set<Position>): set<Position> {
    Grid(w, h) - white
  }

  // Two percent of a side, but at least one pixel.
  function Margin(extent: nat): (m: nat)
    ensures m >= 1 && (extent < 50 ==> m == 1)
    ensures extent >= 50 ==> 50 * m <= extent < 50 * (m + 1)
    ensures extent >= 1 ==> 99 * (extent - 2 * m) <= 97 * extent
  {
    Max(1, extent / 50)
  }

  // A place on a side that is neither its first or last pixel nor within two percent of its ends.
  ghost predicate Inside(extent: nat, x: int) {
    1 <= x <= extent - 2 && 50 * (x + 1) > extent && 50 * (extent - x) > extent
  }

  ghost predicate Central(w: nat, h: nat, front: set<Position>) {
    front != {} && forall p :: p in front ==> Inside(w, p.x) && Inside(h, p.y)
  }

  lemma InsideIsWithinMargin(extent: nat, x: int)
    ensures Inside(extent, x) <==> Margin(extent) <= x < extent - Margin(extent)
  {
  }

  ghost predicate WideAsPercent(extent: nat, percent: nat, front: set<Position>) {
    exists p, q :: p in front && q in front && 100 * (q.x - p.x + 1) >= percent * extent
  }

  ghost predicate TallAsPercent(extent: nat, percent: nat, front: set<Position>) {
    exists p, q :: p in front && q in front && 100 * (q.y - p.y + 1) >= percent * extent
  }

  // At least 10% of the pixels, spanning 18% of each side, inside the central margins.
  ghost predicate Substantial(w: nat, h: nat, front: set<Position>) {
    && 100 * |front| >= 10 * (w * h)
    && WideAsPercent(w, 18, front)
    && TallAsPercent(h, 18, front)
    && Central(w, h, front)
  }

  // The tight box the scan computes; its starting values when there is no foreground.
  ghost predicate IsBox(w: int, h: int, front: set<Position>, left: int, right: int, top: int, bottom: int) {
    && (front == {} ==> left == w && right == -1 && top == h && bottom == -1)
    && (forall p :: p in front ==> left <= p.x <= right && top <= p.y <= bottom)
    && (front != {} ==>
      && (exists p :: p in front && p.x == left)
      && (exists p :: p in front && p.x == right)
      && (exists p :: p in front && p.y == top)
      && (exists p :: p in front && p.y == bottom))
  }

  ghost predicate Scanned(x: int, y: int, p: Position) {
    p.y < y || (p.y == y && p.x < x)
  }

  ghost function ScannedPart(front: set<Position>, x: int, y: int): set<Position> {
    set p | p in front && Scanned(x, y, p)
  }

  lemma ScanStep(front: set<Position>, x: int, y: int)
    ensures At(x, y) !in ScannedPart(front, x, y)
    ensures ScannedPart(front, x + 1, y) == ScannedPart(front, x, y) + (if At(x, y) in front then {At(x, y)} else {})
  {
    forall p | p in ScannedPart(front, x + 1, y) && p != At(x, y) ensures p in ScannedPart(front, x, y) {}
  }

  lemma ScanRow(w: nat, h: nat, front: set<Position>, y: int)
    requires forall p :: p in front ==> InGrid(w, h, p)
    ensures ScannedPart(front, w, y) == ScannedPart(front, 0, y + 1)
    ensures ScannedPart(front, 0, 0) == {} && ScannedPart(front, 0, h) == front
  {
  }

  lemma BoxGrows(
    w: int, h: int, front: set<Position>, p: Position, left: int, right: int, top: int, bottom: int)
    requires IsBox(w, h, front, left, right, top, bottom)
    requires InGrid(w, h, p)
    ensures IsBox(w, h, front + {p}, Min(left, p.x), Max(right, p.x), Min(top, p.y), Max(bottom, p.y))
  {
    assert p in front + {p};
    if front != {} {
      var a :| a in front && a.x == left;
      var b :| b in front && b.x == right;
      var c :| c in front && c.y == top;
      var d :| d in front && d.y == bottom;
      assert {a, b, c, d} <= front + {p};
    }
  }

  // What the scan has computed before it reaches (x, y).
  ghost predicate ScanState(w: int, h: int, front: set<Position>, x: int, y: int,
    count: int, left: int, right: int, top: int, bottom: int)
  {
    count == |ScannedPart(front, x, y)| && IsBox(w, h, ScannedPart(front, x, y), left, right, top, bottom)
  }

  lemma ScanPixel(
    w: int, h: int, front: set<Position>, x: int, y: int, count: int, left: int, right: int, top: int, bottom: int)
    requires InGrid(w, h, At(x, y)) && ScanState(w, h, front, x, y, count, left, right, top, bottom)
    ensures if At(x, y) in front
      then ScanState(w, h, front, x + 1, y, count + 1, Min(left, x), Max(right, x), Min(top, y), Max(bottom, y))
      else ScanState(w, h, front, x + 1, y, count, left, right, top, bottom)
  {
    ScanStep(front, x, y);
    BoxGrows(w, h, ScannedPart(front, x, y), At(x, y), left, right, top, bottom);
    if At(x, y) !in front {
      assert ScannedPart(front, x + 1, y) == ScannedPart(front, x, y);
    }
  }

  lemma ScanStarts(w: nat, h: nat, front: set<Position>)
    requires forall p :: p in front ==> InGrid(w, h, p)
    ensures ScanState(w, h, front, 0, 0, 0, w, -1, h, -1)
  {
    ScanRow(w, h, front, 0);
  }

  lemma ScanTurns(
    w: nat, h: nat, front: set<Position>, y: int, count: int, left: int, right: int, top: int, bottom: int)
    requires forall p :: p in front ==> InGrid(w, h, p)
    requires ScanState(w, h, front, w, y, count, left, right, top, bottom)
    ensures ScanState(w, h, front, 0, y + 1, count, left, right, top, bottom)
  {
    ScanRow(w, h, front, y);
  }

  method MeasureRow(
    px: array2<Pixel>, ghost front: set<Position>, y: nat,
    count0: nat, left0: int, right0: int, top0: int, bottom0: int)
    returns (count: nat, left: int, right: int, top: int, bottom: int)
    requires y < px.Length1
    requires forall p :: p in front <==> InGrid(px.Length0, px.Length1, p) && !NearWhite(px[p.x, p.y])
    requires ScanState(px.Length0, px.Length1, front, 0, y, count0, left0, right0, top0, bottom0)
    ensures ScanState(px.Length0, px.Length1, front, px.Length0, y, count, left, right, top, bottom)
  {
    count, left, right, top, bottom := count0, left0, right0, top0, bottom0;
    for x := 0 to px.Length0
      invariant ScanState(px.Length0, px.Length1, front, x, y, count, left, right, top, bottom)
    {
      assert At(x, y) in front <==> !NearWhite(px[x, y]);
      ScanPixel(px.Length0, px.Length1, front, x, y, count, left, right, top, bottom);
      if !NearWhite(px[x, y]) {
        count := count + 1;
        left, right := Min(left, x), Max(right, x);
        top, bottom := Min(top, y), Max(bottom, y);
      }
    }
  }

  method Measure(px: array2<Pixel>, ghost front: set<Position>)
    returns (count: nat, left: int, right: int, top: int, bottom: int)
    requires px.Length0 > 0 && px.Length1 > 0
    requires forall p :: p in front <==> InGrid(px.Length0, px.Length1, p) && !NearWhite(px[p.x, p.y])
    ensures count == |front|
    ensures IsBox(px.Length0, px.Length1, front, left, right, top, bottom)
  {
    var width, height := px.Length0, px.Length1;
    count, left, right, top, bottom := 0, width, -1, height, -1;
    ScanStarts(width, height, front);
    for y := 0 to height
      invariant ScanState(width, height, front, 0, y, count, left, right, top, bottom)
    {
      count, left, right, top, bottom := MeasureRow(px, front, y, count, left, right, top, bottom);
      ScanTurns(width, height, front, y, count, left, right, top, bottom);
    }
    ScanRow(width, height, front, height);
  }

  // ---------- Counting pixels ----------

  ghost function Rectangle(x0: int, x1: int, y0: int, y1: int): (area: set<Position>)
    ensures forall p :: p in area <==> x0 <= p.x < x1 && y0 <= p.y < y1
  {
    set x: int, y: int | x0 <= x < x1 && y0 <= y < y1 :: At(x, y)
  }

  lemma {:induction false} ColumnSize(x: int, y0: int, y1: int)
    requires y0 <= y1
    ensures |Rectangle(x, x + 1, y0, y1)| == y1 - y0
    decreases y1 - y0
  {
    if y0 == y1 {
      assert Rectangle(x, x + 1, y0, y1) == {};
    } else {
      ColumnSize(x, y0, y1 - 1);
      assert Rectangle(x, x + 1, y0, y1) == Rectangle(x, x + 1, y0, y1 - 1) + {At(x, y1 - 1)};
    }
  }

  lemma RectangleSplits(x0: int, x1: int, y0: int, y1: int, left: set<Position>, last: set<Position>)
    requires x0 < x1 && left == Rectangle(x0, x1 - 1, y0, y1) && last == Rectangle(x1 - 1, x1, y0, y1)
    ensures |Rectangle(x0, x1, y0, y1)| == |left| + |last|
  {
    assert Rectangle(x0, x1, y0, y1) == left + last && left !! last;
  }

  lemma {:induction false} RectangleSize(x0: int, x1: int, y0: int, y1: int, rows: int)
    requires x0 <= x1 && y0 <= y1 && rows == y1 - y0
    ensures |Rectangle(x0, x1, y0, y1)| == (x1 - x0) * rows
    decreases x1 - x0
  {
    if x0 == x1 {
      assert Rectangle(x0, x1, y0, y1) == {};
    } else {
      RectangleSize(x0, x1 - 1, y0, y1, rows);
      ColumnSize(x1 - 1, y0, y1);
      RectangleSplits(x0, x1, y0, y1, Rectangle(x0, x1 - 1, y0, y1), Rectangle(x1 - 1, x1, y0, y1));
      assert (x1 - x0) * rows == (x1 - 1 - x0) * rows + rows;
    }
  }

  lemma GridSize(w: nat, h: nat)
    ensures |Grid(w, h)| == w * h
  {
    RectangleSize(0, w, 0, h, h);
    assert Grid(w, h) == Rectangle(0, w, 0, h);
  }

  // ---------- The decision collapses ----------

  // Straight lines of white pixels to the border.
  lemma {:induction false} LineToBorder(w: int, h: int, white: set<Position>, p: Position, q: Position, distance: nat)
    requires OnBorder(w, h, p) && InGrid(w, h, q)
    requires p.y == q.y || p.x == q.x
    requires distance == if p.y == q.y then AbsoluteGap(p.x, q.x) else AbsoluteGap(p.y, q.y)
    requires forall r :: Between(p, q, r) ==> r in white
    ensures Joined(w, h, white, q)
    decreases distance
  {
    if distance == 0 {
      JoinedBorder(w, h, white, q);
    } else {
      var back :=
        if p.y == q.y then At(if p.x < q.x then q.x - 1 else q.x + 1, q.y)
        else At(q.x, if p.y < q.y then q.y - 1 else q.y + 1);
      LineToBorder(w, h, white, p, back, distance - 1);
      JoinedNeighbour(w, h, white, back, q);
    }
  }

  ghost function AbsoluteGap(a: int, b: int): nat {
    if a <= b then b - a else a - b
  }

  ghost predicate Between(p: Position, q: Position, r: Position) {
    Min(p.x, q.x) <= r.x <= Max(p.x, q.x) && Min(p.y, q.y) <= r.y <= Max(p.y, q.y)
  }

  // With a central foreground, every pixel outside the inner rectangle is joined to the border.
  lemma FrameIsJoined(w: nat, h: nat, grid: set<Position>, white: set<Position>, q: Position)
    requires w > 0 && h > 0 && Central(w, h, grid - white)
    requires forall p :: p in grid <==> InGrid(w, h, p)
    requires InGrid(w, h, q)
    requires !(Margin(w) <= q.x < w - Margin(w) && Margin(h) <= q.y < h - Margin(h))
    ensures q in white && Joined(w, h, white, q)
  {
    var p :=
      if q.x < Margin(w) then At(0, q.y)
      else if q.x >= w - Margin(w) then At(w - 1, q.y)
      else if q.y < Margin(h) then At(q.x, 0)
      else At(q.x, h - 1);
    forall r | Between(p, q, r) ensures r in white {
      assert r in grid;
    }
    LineToBorder(w, h, white, p, q, if p.y == q.y then AbsoluteGap(p.x, q.x) else AbsoluteGap(p.y, q.y));
  }

  // What is not removed lies in the inner rectangle and includes the foreground.
  lemma RetainedBounds(
    w: nat, h: nat, grid: set<Position>, inner: set<Position>, white: set<Position>, visited: set<Position>)
    requires w > 0 && h > 0
    requires forall p :: p in grid <==> InGrid(w, h, p)
    requires forall p :: p in inner <==> Margin(w) <= p.x < w - Margin(w) && Margin(h) <= p.y < h - Margin(h)
    requires visited <= white <= grid && Central(w, h, grid - white)
    requires forall p :: p in visited <==> Joined(w, h, white, p)
    ensures |grid - white| <= |grid| - |visited| <= |inner|
  {
    forall q | q in grid - visited ensures q in inner {
      if q !in inner {
        FrameIsJoined(w, h, grid, white, q);
      }
    }
    SubsetSize(visited, grid);
    SubsetSize(grid - white, grid - visited);
    SubsetSize(grid - visited, inner);
  }

  lemma InnerArea(w: nat, h: nat, innerW: nat, innerH: nat)
    requires 99 * innerW <= 97 * w && 99 * innerH <= 97 * h
    ensures 9801 * (innerW * innerH) <= 9409 * (w * h)
  {
    assert (99 * innerW) * (99 * innerH) <= (97 * w) * (99 * innerH);
    assert (97 * w) * (99 * innerH) <= (97 * w) * (97 * h);
  }

  // A central foreground leaves the inner rectangle with both sides.
  lemma InnerSize(w: nat, h: nat, inner: set<Position>)
    requires w > 0 && h > 0 && 2 * Margin(w) <= w && 2 * Margin(h) <= h
    requires inner == Rectangle(Margin(w), w - Margin(w), Margin(h), h - Margin(h))
    ensures 9801 * |inner| <= 9409 * (w * h)
  {
    RectangleSize(Margin(w), w - Margin(w), Margin(h), h - Margin(h), h - 2 * Margin(h));
    InnerArea(w, h, w - 2 * Margin(w), h - 2 * Margin(h));
  }

  lemma RetainedArea(w: nat, h: nat, white: set<Position>, visited: set<Position>, total: int, front: set<Position>)
    requires w > 0 && h > 0 && visited <= white <= Grid(w, h) && total == w * h
    requires forall p :: p in visited <==> Joined(w, h, white, p)
    requires front == Foreground(w, h, white) && Central(w, h, front)
    ensures |front| <= total - |visited| && 9801 * (total - |visited|) <= 9409 * total
  {
    var inner := Rectangle(Margin(w), w - Margin(w), Margin(h), h - Margin(h));
    RetainedBounds(w, h, Grid(w, h), inner, white, visited);
    GridSize(w, h);
    InnerSize(w, h, inner);
  }

  // Both coverage limits and the retained limit follow from a substantial foreground.
  lemma CoverageIsConfident(w: nat, h: nat, white: set<Position>, visited: set<Position>, total: int)
    requires w > 0 && h > 0 && visited <= white <= Grid(w, h) && total == w * h
    requires forall p :: p in visited <==> Joined(w, h, white, p)
    requires Substantial(w, h, Foreground(w, h, white))
    ensures 9801 * |visited| >= 392 * total
    ensures 10 * |visited| <= 9 * total
  {
    RetainedArea(w, h, white, visited, total, Foreground(w, h, white));
  }

  // The float ratio tests as integer tests, percent by percent.
  lemma RatioAtLeast(n: int, d: int, percent: int)
    requires d > 0
    ensures (n as real / d as real >= percent as real / 100.0) <==> 100 * n >= percent * d
    ensures (n as real / d as real <= percent as real / 100.0) <==> 100 * n <= percent * d
  {
    var ratio := n as real / d as real;
    assert ratio * d as real == n as real;
    var limit := percent as real / 100.0;
    assert limit * 100.0 == percent as real;
    if ratio >= limit {
      assert ratio * d as real >= limit * d as real;
    } else {
      assert ratio * d as real < limit * d as real;
    }
    if ratio <= limit {
      assert ratio * d as real <= limit * d as real;
    } else {
      assert ratio * d as real > limit * d as real;
    }
  }

  lemma SpanOfBox(w: nat, h: nat, front: set<Position>, left: int, right: int, top: int, bottom: int)
    requires IsBox(w, h, front, left, right, top, bottom) && front != {}
    ensures WideAsPercent(w, 18, front) <==> 100 * (right - left + 1) >= 18 * w
    ensures TallAsPercent(h, 18, front) <==> 100 * (bottom - top + 1) >= 18 * h
  {
    var a :| a in front && a.x == left;
    var b :| b in front && b.x == right;
    var c :| c in front && c.y == top;
    var d :| d in front && d.y == bottom;
    if 100 * (right - left + 1) >= 18 * w {
      assert 100 * (b.x - a.x + 1) >= 18 * w;
    }
    if 100 * (bottom - top + 1) >= 18 * h {
      assert 100 * (d.y - c.y + 1) >= 18 * h;
    }
  }

  method TouchesEdge(px: array2<Pixel>) returns (touches: bool)
    requires px.Length0 > 0 && px.Length1 > 0
    ensures touches <==>
      exists p :: p in Foreground(px.Length0, px.Length1, Whites(px)) && OnBorder(px.Length0, px.Length1, p)
  {
    var width, height := px.Length0, px.Length1;
    ghost var front := Foreground(width, height, Whites(px));
    assert forall x, y :: 0 <= x < width && 0 <= y < height && !NearWhite(px[x, y]) ==> At(x, y) in front;
    touches :=
      || (exists x: nat, y: nat | x < width && y < height :: (y == 0 || y == height - 1) && !NearWhite(px[x, y]))
      || (exists x: nat, y: nat | x < width && 1 <= y < Max(1, height - 1) ::
            (x == 0 || x == width - 1) && !NearWhite(px[x, y]));
    if p :| p in front && OnBorder(width, height, p) {
      assert !NearWhite(px[p.x, p.y]);
    }
  }

  // The ratios the source computes from its measurements.
  datatype Ratios = Ratios(coverage: real, retained: real, foreground: real, width: real, height: real, central: bool)

  function RatiosOf(width: nat, height: nat, removed: int,
                    count: int, left: int, right: int, top: int, bottom: int): Ratios
    requires width > 0 && height > 0
  {
    var total := width * height;
    assert total > 0;
    Ratios(
      removed as real / total as real,
      (total - removed) as real / total as real,
      count as real / total as real,
      if count != 0 then (right - left + 1) as real / width as real else 0.0,
      if count != 0 then (bottom - top + 1) as real / height as real else 0.0,
      count != 0 && left >= Margin(width) && right < width - Margin(width)
        && top >= Margin(height) && bottom < height - Margin(height))
  }

  predicate SubstantialByRatios(r: Ratios) {
    r.foreground >= 0.10 && r.width >= 0.18 && r.height >= 0.18 && r.central
  }

  predicate ConfidentByRatios(r: Ratios) {
    0.03 <= r.coverage <= 0.94 && r.retained >= 0.04
  }

  // The stack of tests over the ratios, as the source writes them.
  function Verdict(r: Ratios, edgeForeground: bool): Metadata {
    var substantial := SubstantialByRatios(r);
    var applied := !edgeForeground && substantial && ConfidentByRatios(r);
    Metadata(applied, r.coverage, r.foreground, r.width, r.height, r.central,
      if edgeForeground then Some(EdgeTouchingForeground)
      else if !substantial then Some(InsufficientRetainedForeground)
      else if !applied then Some(InsufficientConfidentBackground)
      else None)
  }

  // The reasons, given that a substantial foreground already forces the tests that follow it.
  lemma VerdictReasons(r: Ratios, edgeForeground: bool)
    requires SubstantialByRatios(r) ==> !edgeForeground && ConfidentByRatios(r)
    ensures var meta := Verdict(r, edgeForeground);
      && (meta.applied <==> SubstantialByRatios(r))
      && (meta.reason == None <==> meta.applied)
      && (meta.reason == Some(EdgeTouchingForeground) <==> edgeForeground)
      && (meta.reason == Some(InsufficientRetainedForeground) <==> !edgeForeground && !meta.applied)
  {
  }

  ghost predicate Measured(w: nat, h: nat, front: set<Position>, edgeForeground: bool,
                           count: int, left: int, right: int, top: int, bottom: int)
  {
    && w > 0 && h > 0
    && (forall p :: p in front ==> InGrid(w, h, p))
    && count == |front| && IsBox(w, h, front, left, right, top, bottom)
    && (edgeForeground <==> exists p :: p in front && OnBorder(w, h, p))
  }

  lemma CentralTest(w: nat, h: nat, front: set<Position>, edgeForeground: bool,
                    count: int, left: int, right: int, top: int, bottom: int)
    requires Measured(w, h, front, edgeForeground, count, left, right, top, bottom)
    ensures Central(w, h, front) <==>
      count != 0 && left >= Margin(w) && right < w - Margin(w) && top >= Margin(h) && bottom < h - Margin(h)
    ensures Central(w, h, front) ==> !edgeForeground
  {
  }

  lemma SubstantialTests(w: nat, h: nat, front: set<Position>, edgeForeground: bool, removed: int,
                         count: int, left: int, right: int, top: int, bottom: int)
    requires Measured(w, h, front, edgeForeground, count, left, right, top, bottom)
    ensures SubstantialByRatios(RatiosOf(w, h, removed, count, left, right, top, bottom)) <==> Substantial(w, h, front)
  {
    assert w * h > 0;
    RatioAtLeast(count, w * h, 10);
    CentralTest(w, h, front, edgeForeground, count, left, right, top, bottom);
    if front != {} {
      RatioAtLeast(right - left + 1, w, 18);
      RatioAtLeast(bottom - top + 1, h, 18);
      SpanOfBox(w, h, front, left, right, top, bottom);
    }
  }

  // How far the foreground reaches along one side.
  ghost predicate SpansWidth(front: set<Position>, span: int) {
    && (exists p, q :: p in front && q in front && q.x - p.x + 1 == span)
    && forall p, q :: p in front && q in front ==> q.x - p.x + 1 <= span
  }

  ghost predicate SpansHeight(front: set<Position>, span: int) {
    && (exists p, q :: p in front && q in front && q.y - p.y + 1 == span)
    && forall p, q :: p in front && q in front ==> q.y - p.y + 1 <= span
  }

  ghost predicate RatioIs(ratio: real, part: int, whole: int) { ratio * whole as real == part as real }

  // What the reported ratios are the ratios of.
  ghost predicate Describes(meta: Metadata, w: nat, h: nat, removed: set<Position>, front: set<Position>) {
    && RatioIs(meta.coverage, |removed|, w * h) && RatioIs(meta.foregroundRatio, |front|, w * h)
    && (meta.centrallyBounded <==> Central(w, h, front))
    && (front == {} ==> meta.widthRatio == 0.0 && meta.heightRatio == 0.0)
    && (front != {} ==>
          && (exists span: int :: SpansWidth(front, span) && RatioIs(meta.widthRatio, span, w))
          && (exists span: int :: SpansHeight(front, span) && RatioIs(meta.heightRatio, span, h)))
  }

  lemma QuotientIsRatio(part: int, whole: int)
    requires whole > 0
    ensures RatioIs(part as real / whole as real, part, whole)
  {
  }

  lemma BoxSpans(w: nat, h: nat, front: set<Position>, left: int, right: int, top: int, bottom: int)
    requires front != {} && IsBox(w, h, front, left, right, top, bottom)
    ensures SpansWidth(front, right - left + 1) && SpansHeight(front, bottom - top + 1)
  {
  }

  lemma RatiosDescribe(w: nat, h: nat, total: int, removed: int,
                       count: int, left: int, right: int, top: int, bottom: int, r: Ratios)
    requires w > 0 && h > 0 && total == w * h && total > 0
    requires r == RatiosOf(w, h, removed, count, left, right, top, bottom)
    ensures RatioIs(r.coverage, removed, total) && RatioIs(r.foreground, count, total)
    ensures if count == 0 then r.width == r.height == 0.0
            else RatioIs(r.width, right - left + 1, w) && RatioIs(r.height, bottom - top + 1, h)
  {
    QuotientIsRatio(removed, total);
    QuotientIsRatio(count, total);
    QuotientIsRatio(right - left + 1, w);
    QuotientIsRatio(bottom - top + 1, h);
  }

  lemma VerdictDescribes(w: nat, h: nat, removed: set<Position>, front: set<Position>, edgeForeground: bool,
                         count: int, left: int, right: int, top: int, bottom: int, r: Ratios)
    requires Measured(w, h, front, edgeForeground, count, left, right, top, bottom)
    requires r == RatiosOf(w, h, |removed|, count, left, right, top, bottom)
    ensures Describes(Verdict(r, edgeForeground), w, h, removed, front)
  {
    var total := w * h;
    assert total > 0;
    RatiosDescribe(w, h, total, |removed|, count, left, right, top, bottom, r);
    CentralTest(w, h, front, edgeForeground, count, left, right, top, bottom);
    if front != {} { BoxSpans(w, h, front, left, right, top, bottom); }
  }

  lemma CoverageTestsPass(w: nat, h: nat, removed: int, total: int,
                          count: int, left: int, right: int, top: int, bottom: int)
    requires w > 0 && h > 0 && total == w * h
    requires 9801 * removed >= 392 * total && 10 * removed <= 9 * total
    ensures ConfidentByRatios(RatiosOf(w, h, removed, count, left, right, top, bottom))
  {
    assert total > 0;
    RatioAtLeast(removed, total, 3);
    RatioAtLeast(removed, total, 94);
    RatioAtLeast(total - removed, total, 4);
  }

  // The decision collapses: of all the tests only the substantial-foreground one matters.
  lemma VerdictCollapses(w: nat, h: nat, white: set<Position>, visited: set<Position>, edgeForeground: bool,
                         count: int, left: int, right: int, top: int, bottom: int, r: Ratios)
    requires visited <= white <= Grid(w, h)
    requires forall p :: p in visited <==> Joined(w, h, white, p)
    requires Measured(w, h, Foreground(w, h, white), edgeForeground, count, left, right, top, bottom)
    requires r == RatiosOf(w, h, |visited|, count, left, right, top, bottom)
    ensures var meta := Verdict(r, edgeForeground);
      && (meta.applied <==> Substantial(w, h, Foreground(w, h, white)))
      && (meta.reason == None <==> meta.applied)
      && (meta.reason == Some(EdgeTouchingForeground) <==> edgeForeground)
      && (meta.reason == Some(InsufficientRetainedForeground) <==> !edgeForeground && !meta.applied)
  {
    var front := Foreground(w, h, white);
    SubstantialTests(w, h, front, edgeForeground, |visited|, count, left, right, top, bottom);
    if Substantial(w, h, front) {
      CentralTest(w, h, front, edgeForeground, count, left, right, top, bottom);
      CoverageIsConfident(w, h, white, visited, w * h);
      CoverageTestsPass(w, h, |visited|, w * h, count, left, right, top, bottom);
    }
    VerdictReasons(r, edgeForeground);
  }

  // ---------- Clearing the alpha channel ----------

  method ClearAlpha(alpha: array2<Sample>, visited: set<Position>)
    requires forall p :: p in visited ==> InGrid(alpha.Length0, alpha.Length1, p)
    modifies alpha
    ensures forall x, y :: 0 <= x < alpha.Length0 && 0 <= y < alpha.Length1 ==>
      alpha[x, y] == if At(x, y) in visited then 0 else old(alpha[x, y])
  {
    var rest := visited;
    while rest != {}
      invariant rest <= visited
      invariant forall x, y :: 0 <= x < alpha.Length0 && 0 <= y < alpha.Length1 ==>
        alpha[x, y] == if At(x, y) in visited - rest then 0 else old(alpha[x, y])
      decreases rest
    {
      var p :| p in rest;
      alpha[p.x, p.y] := 0;
      rest := rest - {p};
    }
  }

  method ImageCopy(source: array2<Pixel>) returns (result: array2<Pixel>)
    ensures fresh(result) && result.Length0 == source.Length0 && result.Length1 == source.Length1
    ensures forall x, y :: 0 <= x < source.Length0 && 0 <= y < source.Length1 ==> result[x, y] == source[x, y]
  {
    result := new Pixel[source.Length0, source.Length1]((x, y)
      requires 0 <= x < source.Length0 && 0 <= y < source.Length1 reads source => source[x, y]);
  }

  // Copies the image, clears the visited samples of its alpha channel in place, and puts the channel back.
  method WithCleared(source: array2<Pixel>, visited: set<Position>) returns (result: array2<Pixel>)
    requires forall p :: p in visited ==> InGrid(source.Length0, source.Length1, p)
    ensures fresh(result) && result.Length0 == source.Length0 && result.Length1 == source.Length1
    ensures forall x, y :: 0 <= x < source.Length0 && 0 <= y < source.Length1 ==>
      result[x, y] == if At(x, y) in visited then source[x, y].(alpha := 0) else source[x, y]
  {
    result := ImageCopy(source);
    var alpha := new Sample[source.Length0, source.Length1]((x, y)
      requires 0 <= x < source.Length0 && 0 <= y < source.Length1 reads source => source[x, y].alpha);
    ClearAlpha(alpha, visited);
    forall x, y | 0 <= x < source.Length0 && 0 <= y < source.Length1 {
      result[x, y] := result[x, y].(alpha := alpha[x, y]);
    }
  }

  // The pixels joined to the border.
  ghost predicate RemovedIs(px: array2<Pixel>, removed: set<Position>)
    reads px
  {
    forall p :: p in removed <==> Joined(px.Length0, px.Length1, Whites(px), p)
  }

  method Mask(px: array2<Pixel>) returns (visited: set<Position>, meta: Metadata)
    requires px.Length0 > 0 && px.Length1 > 0
    ensures forall p :: p in visited ==> InGrid(px.Length0, px.Length1, p)
    ensures forall p :: p in visited <==> Joined(px.Length0, px.Length1, Whites(px), p)
    ensures meta.applied <==> Substantial(px.Length0, px.Length1, Foreground(px.Length0, px.Length1, Whites(px)))
    ensures meta.reason == None <==> meta.applied
    ensures meta.reason == Some(EdgeTouchingForeground) <==>
      exists p :: p in Foreground(px.Length0, px.Length1, Whites(px)) && OnBorder(px.Length0, px.Length1, p)
    ensures meta.reason in {None, Some(EdgeTouchingForeground), Some(InsufficientRetainedForeground)}
    ensures Describes(meta, px.Length0, px.Length1, visited, Foreground(px.Length0, px.Length1, Whites(px)))
  {
    visited := Flood(px);
    var edgeForeground := TouchesEdge(px);
    var count, left, right, top, bottom := Measure(px, Foreground(px.Length0, px.Length1, Whites(px)));
    var ratios := RatiosOf(px.Length0, px.Length1, |visited|, count, left, right, top, bottom);
    VerdictCollapses(
      px.Length0, px.Length1, Whites(px), visited, edgeForeground, count, left, right, top, bottom, ratios);
    VerdictDescribes(px.Length0, px.Length1, visited, Foreground(px.Length0, px.Length1, Whites(px)), edgeForeground,
      count, left, right, top, bottom, ratios);
    meta := Verdict(ratios, edgeForeground);
  }

  method Cutout(source: array2<Pixel>, trusted: bool) returns (result: array2<Pixel>, meta: Metadata)
    requires source.Length0 > 0 && source.Length1 > 0
    ensures fresh(result) && result.Length0 == source.Length0 && result.Length1 == source.Length1
    ensures meta.applied <==>
      trusted && Substantial(source.Length0, source.Length1, Foreground(source.Length0, source.Length1, Whites(source)))
    ensures meta.reason == None <==> meta.applied
    ensures meta.reason == Some(OpaqueBackgroundNotVerified) <==> !trusted
    ensures meta.reason == Some(EdgeTouchingForeground) <==>
      && trusted
      && exists p :: p in Foreground(source.Length0, source.Length1, Whites(source))
                     && OnBorder(source.Length0, source.Length1, p)
    ensures meta.reason != Some(InsufficientConfidentBackground)
    ensures !trusted ==> meta == Metadata(false, 0.0, 1.0, 1.0, 1.0, false, Some(OpaqueBackgroundNotVerified))
    ensures trusted ==> (exists removed ::
      && RemovedIs(source, removed)
      && Describes(meta, source.Length0, source.Length1, removed,
                   Foreground(source.Length0, source.Length1, Whites(source))))
    ensures forall x, y :: 0 <= x < source.Length0 && 0 <= y < source.Length1 ==>
      result[x, y] ==
        if meta.applied && Joined(source.Length0, source.Length1, Whites(source), At(x, y))
        then source[x, y].(alpha := 0) else source[x, y]
  {
    if !trusted {
      result := ImageCopy(source);
      meta := Metadata(false, 0.0, 1.0, 1.0, 1.0, false, Some(OpaqueBackgroundNotVerified));
      return;
    }
    var visited;
    visited, meta := Mask(source);
    assert RemovedIs(source, visited);
    if meta.applied {
      result := WithCleared(source, visited);
    } else {
      result := ImageCopy(source);
    }
  }

  // An applied cutout clears every border pixel.
  lemma AppliedClearsBorder(px: array2<Pixel>, p: Position)
    requires Substantial(px.Length0, px.Length1, Foreground(px.Length0, px.Length1, Whites(px)))
    requires OnBorder(px.Length0, px.Length1, p)
    ensures Joined(px.Length0, px.Length1, Whites(px), p)
  {
    FrameIsJoined(px.Length0, px.Length1, Grid(px.Length0, px.Length1), Whites(px), p);
  }

  // "Transparent exactly on the removed set" holds of the image that an applied cutout returns precisely when no
  // source pixel is already transparent: such a pixel is never near-white, so it keeps the alpha it had.
  lemma TransparencyIsExact(source: array2<Pixel>, result: array2<Pixel>)
    requires result.Length0 == source.Length0 && result.Length1 == source.Length1
    requires forall x, y :: 0 <= x < source.Length0 && 0 <= y < source.Length1 ==>
      result[x, y] ==
        if Joined(source.Length0, source.Length1, Whites(source), At(x, y))
        then source[x, y].(alpha := 0) else source[x, y]
    ensures
      (forall x, y :: 0 <= x < source.Length0 && 0 <= y < source.Length1 ==>
        (result[x, y].alpha == 0 <==> Joined(source.Length0, source.Length1, Whites(source), At(x, y))))
      <==>
      (forall x, y :: 0 <= x < source.Length0 && 0 <= y < source.Length1 ==> source[x, y].alpha != 0)
  {
    forall x, y | 0 <= x < source.Length0 && 0 <= y < source.Length1 && source[x, y].alpha == 0
      ensures !Joined(source.Length0, source.Length1, Whites(source), At(x, y)) && result[x, y].alpha == 0
    {
      assert At(x, y) !in Whites(source);
    }
  }
}
