/** getMaxSize: the axis-aligned bounding box of every vertex of every path. */
module Bounds {
  import opened Wrappers
  import opened Okageo

  /** The box `{x, y, width, height}` the source returns. */
  datatype Rect = Rect(x: real, y: real, width: real, height: real)

  /** Running minima and maxima of the vertices seen so far. */
  datatype Extent = Extent(minX: real, minY: real, maxX: real, maxY: real)

  function Min(a: real, b: real): real { if a <= b then a else b }

  function Max(a: real, b: real): real { if a >= b then a else b }

  /** Every vertex of every path, path by path, in order. */
  function Vertices(paths: seq<SvgPath>): seq<Vec2>
  {
    if paths == [] then [] else Vertices(paths[..|paths| - 1]) + paths[|paths| - 1].d
  }

  /** A point is a collected vertex exactly when it is a vertex of one of the paths. */
  lemma {:induction false} VerticesMembers(paths: seq<SvgPath>)
    ensures forall k, p :: 0 <= k < |paths| && p in paths[k].d ==> p in Vertices(paths)
    ensures forall p :: p in Vertices(paths) ==> exists k :: 0 <= k < |paths| && p in paths[k].d
  {
    if paths != [] {
      var init := paths[..|paths| - 1];
      VerticesMembers(init);
      assert forall k :: 0 <= k < |init| ==> init[k] == paths[k];
    }
  }

  /** One step of the fold: `Math.min`/`Math.max` against the running values, which start
      at +Infinity and -Infinity (here: no extent yet). */
  function Widen(e: Option<Extent>, p: Vec2): Extent
  {
    match e
    case None => Extent(p.x, p.y, p.x, p.y)
    case Some(b) => Extent(Min(b.minX, p.x), Min(b.minY, p.y), Max(b.maxX, p.x), Max(b.maxY, p.y))
  }

  /** The fold over a vertex list, in list order. */
  function ExtentOf(pts: seq<Vec2>): Option<Extent>
  {
    if pts == [] then None else Some(Widen(ExtentOf(pts[..|pts| - 1]), pts[|pts| - 1]))
  }

  /** The result of getMaxSize; None stands for the source's
      `{x: Infinity, y: Infinity, width: -Infinity, height: -Infinity}` when there is no vertex. */
  function MaxSize(paths: seq<SvgPath>): Option<Rect>
  {
    match ExtentOf(Vertices(paths))
    case None => None
    case Some(e) => Some(Rect(e.minX, e.minY, e.maxX - e.minX, e.maxY - e.minY))
  }

  /** Every point's x lies between those of `lo` and `hi`. */
  ghost predicate SpansX(pts: seq<Vec2>, lo: Vec2, hi: Vec2)
  {
    forall p :: p in pts ==> lo.x <= p.x <= hi.x
  }

  /** Every point's y lies between those of `lo` and `hi`. */
  ghost predicate SpansY(pts: seq<Vec2>, lo: Vec2, hi: Vec2)
  {
    forall p :: p in pts ==> lo.y <= p.y <= hi.y
  }

  /** Every vertex lies within the running extent. */
  lemma {:induction false} ExtentContains(pts: seq<Vec2>)
    requires pts != []
    ensures var e := ExtentOf(pts).value;
      forall p :: p in pts ==> e.minX <= p.x <= e.maxX && e.minY <= p.y <= e.maxY
  {
    var init := pts[..|pts| - 1];
    assert pts == init + [pts[|pts| - 1]];
    if init != [] {
      ExtentContains(init);
    }
  }

  /** Every bound of the running extent is a coordinate of some vertex. */
  lemma {:induction false} ExtentTight(pts: seq<Vec2>)
    requires pts != []
    ensures var e := ExtentOf(pts).value;
      (exists p :: p in pts && p.x == e.minX) && (exists p :: p in pts && p.x == e.maxX) &&
      (exists p :: p in pts && p.y == e.minY) && (exists p :: p in pts && p.y == e.maxY)
  {
    var init, last := pts[..|pts| - 1], pts[|pts| - 1];
    assert pts == init + [last];
    assert last in pts;
    if init != [] {
      ExtentTight(init);
      var e0 := ExtentOf(init).value;
      var a :| a in init && a.x == e0.minX;
      var b :| b in init && b.x == e0.maxX;
      var c :| c in init && c.y == e0.minY;
      var d :| d in init && d.y == e0.maxY;
      assert a in pts && b in pts && c in pts && d in pts;
    }
  }

  /** Vertices attaining the four bounds of the extent, each pair spanning every vertex. */
  lemma Brackets(pts: seq<Vec2>) returns (xlo: Vec2, xhi: Vec2, ylo: Vec2, yhi: Vec2)
    requires pts != []
    ensures var e := ExtentOf(pts).value;
      xlo in pts && xhi in pts && ylo in pts && yhi in pts &&
      xlo.x == e.minX && xhi.x == e.maxX && ylo.y == e.minY && yhi.y == e.maxY &&
      SpansX(pts, xlo, xhi) && SpansY(pts, ylo, yhi)
  {
    var e := ExtentOf(pts).value;
    ExtentTight(pts);
    xlo :| xlo in pts && xlo.x == e.minX;
    xhi :| xhi in pts && xhi.x == e.maxX;
    ylo :| ylo in pts && ylo.y == e.minY;
    yhi :| yhi in pts && yhi.y == e.maxY;
    ExtentContains(pts);
  }

  /** getMaxSize with a vertex: the box is well formed and encloses every vertex of every path;
      without one, the result is the infinite (None) box. */
  lemma MaxSizeContains(paths: seq<SvgPath>)
    ensures MaxSize(paths).None? <==> forall k :: 0 <= k < |paths| ==> paths[k].d == []
    ensures MaxSize(paths).Some? ==>
      var b := MaxSize(paths).value;
      b.width >= 0.0 && b.height >= 0.0 &&
      forall k, p :: 0 <= k < |paths| && p in paths[k].d ==>
        b.x <= p.x <= b.x + b.width && b.y <= p.y <= b.y + b.height
  {
    var pts := Vertices(paths);
    VerticesMembers(paths);
    if exists k :: 0 <= k < |paths| && paths[k].d != [] {
      var k :| 0 <= k < |paths| && paths[k].d != [];
      assert paths[k].d[0] in pts;
    }
    if pts != [] {
      ExtentContains(pts);
      assert pts[0] in pts;
    }
  }

  /** getMaxSize is tight: each side of the box passes through a vertex of some path. */
  lemma MaxSizeTight(paths: seq<SvgPath>)
    requires MaxSize(paths).Some?
    ensures var b := MaxSize(paths).value;
      (exists k, p :: 0 <= k < |paths| && p in paths[k].d && p.x == b.x) &&
      (exists k, p :: 0 <= k < |paths| && p in paths[k].d && p.x == b.x + b.width) &&
      (exists k, p :: 0 <= k < |paths| && p in paths[k].d && p.y == b.y) &&
      (exists k, p :: 0 <= k < |paths| && p in paths[k].d && p.y == b.y + b.height)
  {
    var pts := Vertices(paths);
    ExtentTight(pts);
    var e := ExtentOf(pts).value;
    var a :| a in pts && a.x == e.minX;
    var b :| b in pts && b.x == e.maxX;
    var c :| c in pts && c.y == e.minY;
    var d :| d in pts && d.y == e.maxY;
    var ka := OwnerOf(paths, a);
    var kb := OwnerOf(paths, b);
    var kc := OwnerOf(paths, c);
    var kd := OwnerOf(paths, d);
  }

  /** The index of a path that a collected vertex comes from. */
  lemma OwnerOf(paths: seq<SvgPath>, p: Vec2) returns (k: nat)
    requires p in Vertices(paths)
    ensures k < |paths| && p in paths[k].d
  {
    VerticesMembers(paths);
    k :| 0 <= k < |paths| && p in paths[k].d;
  }

  /** The fold over `pts` started from an extent already collected. */
  function WidenedBy(acc: Option<Extent>, pts: seq<Vec2>): Option<Extent>
  {
    if pts == [] then acc else Some(Widen(WidenedBy(acc, pts[..|pts| - 1]), pts[|pts| - 1]))
  }

  /** Folding two vertex lists one after the other is folding their concatenation. */
  lemma {:induction false} ExtentAppend(a: seq<Vec2>, b: seq<Vec2>)
    ensures ExtentOf(a + b) == WidenedBy(ExtentOf(a), b)
  {
    if b == [] {
      assert a + b == a;
    } else {
      var init := b[..|b| - 1];
      ExtentAppend(a, init);
      assert (a + b)[..|a + b| - 1] == a + init;
    }
  }

  /** One path's `d.forEach`: each vertex moves the four running bounds by `Math.min`/`Math.max`. */
  method WidenByPath(acc: Option<Extent>, d: seq<Vec2>) returns (r: Option<Extent>)
    ensures r == WidenedBy(acc, d)
  {
    r := acc;
    var j := 0;
    while j < |d|
      invariant 0 <= j <= |d|
      invariant r == WidenedBy(acc, d[..j])
    {
      var v := d[j];
      match r {
        case None =>
          r := Some(Extent(v.x, v.y, v.x, v.y));
        case Some(b) =>
          r := Some(Extent(Min(b.minX, v.x), Min(b.minY, v.y), Max(b.maxX, v.x), Max(b.maxY, v.y)));
      }
      assert d[..j + 1][..j] == d[..j];
      j := j + 1;
    }
    assert d[..j] == d;
  }

  /** getMaxSize as the source runs it: the outer `forEach` over the paths carries the
      running bounds (None while they are still the infinite start values) through each
      path's vertices, and the box is read off at the end. */
  method GetMaxSize(paths: seq<SvgPath>) returns (r: Option<Rect>)
    ensures r == MaxSize(paths)
  {
    var bounds: Option<Extent> := None;
    var i := 0;
    while i < |paths|
      invariant 0 <= i <= |paths|
      invariant bounds == ExtentOf(Vertices(paths[..i]))
    {
      bounds := WidenByPath(bounds, paths[i].d);
      ExtentAppend(Vertices(paths[..i]), paths[i].d);
      assert paths[..i + 1][..i] == paths[..i];
      i := i + 1;
    }
    assert paths[..i] == paths;
    r := match bounds
      case None => None
      case Some(e) => Some(Rect(e.minX, e.minY, e.maxX - e.minX, e.maxY - e.minY));
  }
}
