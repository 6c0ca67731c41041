/** craeteBlock, without the meshes: the rest position and the wall segments of one path. */
module Blocks {
  import opened Wrappers
  import opened Okageo
  import opened Bounds

  /** Thickness of a block along the extrusion axis. */
  const Depth: real := 2.0

  datatype Vec3 = Vec3(x: real, y: real, z: real)

  /** A rest position. An outline without vertices has a box of infinities in the source,
      so the centre's x and y come out as NaN. */
  datatype Position = At(v: Vec3) | NotANumber

  /** One wall segment, along the outline edge from `from` to `to` (scene coordinates). */
  datatype Edge = Edge(from: Vec2, to: Vec2)

  /** A block: its face outline and wall segments in scene coordinates, its rest position,
      and how many per-frame turns the render loop has applied to its meshes. */
  datatype Block = Block(outline: seq<Vec2>, walls: seq<Edge>, position: Position, spin: nat)

  /** The scene's y axis points up, the drawing's down. */
  function Flip(p: Vec2): Vec2
  {
    Vec2(p.x, -p.y)
  }

  /** The rest position: the centre of the path's bounding box, y negated, at half depth. */
  function RestPosition(path: SvgPath): Position
  {
    match MaxSize([path])
    case None => NotANumber
    case Some(b) => At(Vec3(b.x + b.width / 2.0, -(b.y + b.height / 2.0), Depth / 2.0))
  }

  /** The face outline in scene coordinates (`moveTo` the first vertex, `lineTo` the others). */
  function Outline(d: Polygon): (r: seq<Vec2>)
    ensures |r| == |d|
  {
    seq(|d|, i requires 0 <= i < |d| => Flip(d[i]))
  }

  /** The wall on the edge leaving vertex i: it joins vertex i to vertex (i + 1) mod n. */
  function WallAt(d: Polygon, i: int): Edge
    requires 0 <= i < |d|
  {
    Edge(Flip(d[i]), Flip(d[(i + 1) % |d|]))
  }

  /** One wall per vertex, in vertex order. */
  function Walls(d: Polygon): (r: seq<Edge>)
    ensures |r| == |d|
  {
    seq(|d|, i requires 0 <= i < |d| => WallAt(d, i))
  }

  /** The block of one path. */
  function CreateBlock(path: SvgPath): (r: Block)
    ensures |r.walls| == |r.outline| == |path.d|
    ensures r.spin == 0
  {
    Block(Outline(path.d), Walls(path.d), RestPosition(path), 0)
  }

  /** The walls follow the face outline and close into a ring: wall i starts at vertex i,
      and ends where wall i + 1 (wrapping round to wall 0) starts. */
  lemma WallRing(d: Polygon)
    ensures var walls, outline := Walls(d), Outline(d);
      forall i :: 0 <= i < |walls| ==>
        walls[i].from == outline[i] == Flip(d[i]) &&
        walls[i].to == walls[(i + 1) % |walls|].from
  {
  }

  /** The box of one path is the extent of its own vertices (the source passes `[pathInfo]`
      to getMaxSize). */
  lemma OwnBox(path: SvgPath)
    ensures MaxSize([path]) == match ExtentOf(path.d)
      case None => None
      case Some(e) => Some(Rect(e.minX, e.minY, e.maxX - e.minX, e.maxY - e.minY))
  {
    assert [path][..0] == [];
    assert Vertices([path]) == [] + path.d;
    assert [] + path.d == path.d;
  }

  /** An outline without vertices gets no numeric rest position. */
  lemma EmptyOutlineHasNoPosition(path: SvgPath)
    ensures RestPosition(path) == NotANumber <==> path.d == []
  {
    OwnBox(path);
  }

  /** The rest position is the centre of the path's bounding box: on each axis it lies midway
      between two vertices that bound all others (y measured in scene coordinates), at half depth. */
  lemma BlockCentred(path: SvgPath)
    requires path.d != []
    ensures RestPosition(path).At?
    ensures var c := RestPosition(path).v;
      c.z == 1.0 &&
      (exists lo, hi :: lo in path.d && hi in path.d && lo.x + hi.x == 2.0 * c.x && SpansX(path.d, lo, hi)) &&
      (exists lo, hi :: lo in path.d && hi in path.d && lo.y + hi.y == -2.0 * c.y && SpansY(path.d, lo, hi))
  {
    CentreOf(path);
    var xlo, xhi, ylo, yhi := Brackets(path.d);
    assert xlo.x + xhi.x == 2.0 * RestPosition(path).v.x;
    assert ylo.y + yhi.y == -2.0 * RestPosition(path).v.y;
  }

  /** The rest position of a path with a vertex, read off the extent of its own vertices. */
  lemma CentreOf(path: SvgPath)
    requires path.d != []
    ensures var e := ExtentOf(path.d).value;
      RestPosition(path) == At(Vec3((e.minX + e.maxX) / 2.0, -((e.minY + e.maxY) / 2.0), 1.0))
  {
    OwnBox(path);
  }
}
