/** The vocabulary the geometry layer shares with the okageo library: points, polygons,
    styled paths, cut lines, and the four polygon primitives the splitter relies on. */
module Okageo {
  import opened Wrappers

  /** A point of the drawing plane (okageo's IVec2). */
  datatype Vec2 = Vec2(x: real, y: real)

  /** A closed polygon: its last vertex joins its first. */
  type Polygon = seq<Vec2>

  /** A cut line, given by two of its points. */
  datatype Line = Line(from: Vec2, to: Vec2)

  /** Cosmetic attributes carried with a path; they never affect geometry. */
  datatype SvgStyle = SvgStyle(fill: bool, fillStyle: string, stroke: bool, strokeStyle: string, lineWidth: real)

  /** A shape: root polygon `d`, the polygons it contains (optional, as in okageo's ISvgPath), and a style. */
  datatype SvgPath = SvgPath(d: Polygon, included: Option<seq<Polygon>>, style: SvgStyle)

  /** One containment group: its first polygon is the root, the rest lie inside it. */
  type Group = g: seq<Polygon> | |g| > 0 witness [[]]

  /** The okageo primitives, left uninterpreted: the model holds for every choice of them. */
  datatype Geo = Geo(
    splitPolyByLine: (Polygon, Line) -> seq<Polygon>,
    getLoopwise: Polygon -> int,
    getPolygonNotPolygon: (Polygon, Polygon) -> Polygon,
    getIncludedPolygonGroups: seq<Polygon> -> seq<Group>)

  /** The included polygons of a path; an absent list reads as empty. */
  function Included(path: SvgPath): seq<Polygon>
  {
    match path.included
    case None => []
    case Some(polys) => polys
  }
}
