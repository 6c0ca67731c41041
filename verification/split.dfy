/** splitShape: cut one shape by one line, keeping holes correct. */
module Split {
  import opened Wrappers
  import opened Seqs
  import opened Okageo

  /** The test that sorts an included polygon: does it wind like the root (loopwise `rw`)? */
  function WindsLike(geo: Geo, rw: int): Polygon -> bool
  {
    p => geo.getLoopwise(p) == rw
  }

  /** The test that sorts an opposite-winding polygon: does the line split it into any piece? */
  function Crossed(geo: Geo, line: Line): Polygon -> bool
  {
    p => |geo.splitPolyByLine(p, line)| > 0
  }

  /** Included polygons that wind like the root, in order. */
  function SameWinding(geo: Geo, shape: SvgPath): seq<Polygon>
  {
    Select(Included(shape), WindsLike(geo, geo.getLoopwise(shape.d)), true)
  }

  /** Included polygons that wind against the root, in order. */
  function OppositeWinding(geo: Geo, shape: SvgPath): seq<Polygon>
  {
    Select(Included(shape), WindsLike(geo, geo.getLoopwise(shape.d)), false)
  }

  /** The opposite-winding polygons the line crosses: the list that is subtracted. */
  function Holes(geo: Geo, shape: SvgPath, line: Line): seq<Polygon>
  {
    Select(OppositeWinding(geo, shape), Crossed(geo, line), true)
  }

  /** The opposite-winding polygons the line misses: they join the pool unchanged. */
  function UncutHoles(geo: Geo, shape: SvgPath, line: Line): seq<Polygon>
  {
    Select(OppositeWinding(geo, shape), Crossed(geo, line), false)
  }

  /** What one same-winding polygon adds to the pool: its pieces, or itself when the
      split returns nothing. */
  function Pieces(geo: Geo, line: Line, poly: Polygon): (r: seq<Polygon>)
  {
    var sp := geo.splitPolyByLine(poly, line);
    if |sp| > 0 then sp else [poly]
  }

  /** The pieces of a list of same-winding polygons, concatenated in list order. */
  function SamePieces(geo: Geo, line: Line, polys: seq<Polygon>): (r: seq<Polygon>)
    ensures |r| >= |polys|
  {
    if polys == [] then []
    else SamePieces(geo, line, polys[..|polys| - 1]) + Pieces(geo, line, polys[|polys| - 1])
  }

  /** The pooled pieces are exactly the pieces of the listed polygons. */
  lemma {:induction false} SamePiecesMembers(geo: Geo, line: Line, polys: seq<Polygon>)
    ensures forall p, q :: p in polys && q in Pieces(geo, line, p) ==> q in SamePieces(geo, line, polys)
    ensures forall q :: q in SamePieces(geo, line, polys) ==> exists p :: p in polys && q in Pieces(geo, line, p)
  {
    if polys != [] {
      var init, last := polys[..|polys| - 1], polys[|polys| - 1];
      assert polys == init + [last];
      SamePiecesMembers(geo, line, init);
    }
  }

  /** The pool before subtraction: root pieces, then same-winding pieces, then the uncut
      opposite-winding polygons. */
  function Pool(geo: Geo, shape: SvgPath, line: Line): seq<Polygon>
  {
    geo.splitPolyByLine(shape.d, line) + SamePieces(geo, line, SameWinding(geo, shape)) + UncutHoles(geo, shape, line)
  }

  /** `holes.reduce((p, c) => getPolygonNotPolygon(p, c), poly)`: a left fold. */
  function SubtractAll(geo: Geo, poly: Polygon, holes: seq<Polygon>): Polygon
  {
    if holes == [] then poly
    else geo.getPolygonNotPolygon(SubtractAll(geo, poly, holes[..|holes| - 1]), holes[|holes| - 1])
  }

  /** Every pooled polygon with every hole subtracted. */
  function Subtracted(geo: Geo, pool: seq<Polygon>, holes: seq<Polygon>): (r: seq<Polygon>)
    ensures |r| == |pool|
  {
    seq(|pool|, i requires 0 <= i < |pool| => SubtractAll(geo, pool[i], holes))
  }

  /** Turns each containment group `[d, ...included]` back into a path with the given style. */
  function Regroup(groups: seq<Group>, style: SvgStyle): (r: seq<SvgPath>)
    ensures |r| == |groups|
    ensures forall i :: 0 <= i < |r| ==>
      r[i].style == style && r[i].included.Some? && [r[i].d] + r[i].included.value == groups[i]
  {
    seq(|groups|, i requires 0 <= i < |groups| => SvgPath(groups[i][0], Some(groups[i][1..]), style))
  }

  /** The result of splitShape. */
  function Fragments(geo: Geo, shape: SvgPath, line: Line): seq<SvgPath>
  {
    if |geo.splitPolyByLine(shape.d, line)| < 2 then [shape]
    else
      var pool := Pool(geo, shape, line);
      Regroup(geo.getIncludedPolygonGroups(Subtracted(geo, pool, Holes(geo, shape, line))), shape.style)
  }

  /** Every included polygon lands in exactly one of the two winding lists, each in the
      original order, and the lists are decided by comparing loopwise with the root's. */
  lemma WindingPartition(geo: Geo, shape: SvgPath)
    ensures Interleaves(Included(shape), SameWinding(geo, shape), OppositeWinding(geo, shape))
    ensures multiset(Included(shape)) == multiset(SameWinding(geo, shape)) + multiset(OppositeWinding(geo, shape))
    ensures forall p :: p in SameWinding(geo, shape) <==>
      p in Included(shape) && geo.getLoopwise(p) == geo.getLoopwise(shape.d)
    ensures forall p :: p in OppositeWinding(geo, shape) <==>
      p in Included(shape) && geo.getLoopwise(p) != geo.getLoopwise(shape.d)
  {
    var inc, test := Included(shape), WindsLike(geo, geo.getLoopwise(shape.d));
    SelectSplits(inc, test);
    SelectMembers(inc, test, true);
    SelectMembers(inc, test, false);
    InterleavesCounts(inc, Select(inc, test, true), Select(inc, test, false));
  }

  /** An opposite-winding polygon is collected for subtraction exactly when the line splits it
      into some piece; otherwise it goes into the pool unchanged. */
  lemma HoleRouting(geo: Geo, shape: SvgPath, line: Line)
    ensures Interleaves(OppositeWinding(geo, shape), Holes(geo, shape, line), UncutHoles(geo, shape, line))
    ensures forall p :: p in OppositeWinding(geo, shape) ==>
      (p in Holes(geo, shape, line) <==> |geo.splitPolyByLine(p, line)| > 0)
    ensures forall p :: p in OppositeWinding(geo, shape) && geo.splitPolyByLine(p, line) == [] ==>
      p in Pool(geo, shape, line)
  {
    SelectSplits(OppositeWinding(geo, shape), Crossed(geo, line));
    SelectMembers(OppositeWinding(geo, shape), Crossed(geo, line), true);
    SelectMembers(OppositeWinding(geo, shape), Crossed(geo, line), false);
  }

  /** A same-winding polygon contributes its split pieces to the pool, or itself when the
      split returns nothing. */
  lemma SameWindingPooled(geo: Geo, shape: SvgPath, line: Line)
    ensures forall p :: p in SameWinding(geo, shape) ==>
      if geo.splitPolyByLine(p, line) == [] then p in Pool(geo, shape, line)
      else forall q :: q in geo.splitPolyByLine(p, line) ==> q in Pool(geo, shape, line)
  {
    SamePiecesMembers(geo, line, SameWinding(geo, shape));
    forall p | p in SameWinding(geo, shape)
      ensures if geo.splitPolyByLine(p, line) == [] then p in Pool(geo, shape, line)
        else forall q :: q in geo.splitPolyByLine(p, line) ==> q in Pool(geo, shape, line)
    {
      if geo.splitPolyByLine(p, line) == [] {
        assert p in Pieces(geo, line, p);
      }
    }
  }

  /** The fold subtracts the holes in list order: the first hole is subtracted first. */
  lemma {:induction false} SubtractInOrder(geo: Geo, poly: Polygon, hole: Polygon, rest: seq<Polygon>)
    ensures SubtractAll(geo, poly, [hole] + rest) == SubtractAll(geo, geo.getPolygonNotPolygon(poly, hole), rest)
    decreases |rest|
  {
    if rest != [] {
      var init := rest[..|rest| - 1];
      assert ([hole] + rest)[..|rest|] == [hole] + init;
      SubtractInOrder(geo, poly, hole, init);
    }
  }

  /** The first forEach of splitShape: push each included polygon onto the same- or
      opposite-winding list by comparing its loopwise with the root's. */
  method ClassifyByWinding(geo: Geo, shape: SvgPath) returns (sameLoopwiseList: seq<Polygon>, oppositeLoopwiseList: seq<Polygon>)
    ensures sameLoopwiseList == SameWinding(geo, shape)
    ensures oppositeLoopwiseList == OppositeWinding(geo, shape)
  {
    var rootLoopwise := geo.getLoopwise(shape.d);
    sameLoopwiseList, oppositeLoopwiseList := [], [];
    if shape.included.Some? {
      var inc := shape.included.value;
      var i := 0;
      while i < |inc|
        invariant 0 <= i <= |inc|
        invariant sameLoopwiseList == Select(inc[..i], WindsLike(geo, rootLoopwise), true)
        invariant oppositeLoopwiseList == Select(inc[..i], WindsLike(geo, rootLoopwise), false)
      {
        if geo.getLoopwise(inc[i]) == rootLoopwise {
          sameLoopwiseList := sameLoopwiseList + [inc[i]];
        } else {
          oppositeLoopwiseList := oppositeLoopwiseList + [inc[i]];
        }
        assert inc[..i + 1][..i] == inc[..i];
        i := i + 1;
      }
      assert inc[..i] == inc;
    }
  }

  /** The second forEach: each same-winding polygon appends its pieces, or itself when the
      split returns nothing, to `splited`. */
  method PoolSameWinding(geo: Geo, line: Line, splited: seq<Polygon>, sameLoopwiseList: seq<Polygon>)
    returns (pool: seq<Polygon>)
    ensures pool == splited + SamePieces(geo, line, sameLoopwiseList)
  {
    pool := splited;
    var k := 0;
    while k < |sameLoopwiseList|
      invariant 0 <= k <= |sameLoopwiseList|
      invariant pool == splited + SamePieces(geo, line, sameLoopwiseList[..k])
    {
      var poly := sameLoopwiseList[k];
      var sp := geo.splitPolyByLine(poly, line);
      pool := pool + (if |sp| > 0 then sp else [poly]);
      assert sameLoopwiseList[..k + 1][..k] == sameLoopwiseList[..k];
      k := k + 1;
    }
    assert sameLoopwiseList[..k] == sameLoopwiseList;
  }

  /** The third forEach: an opposite-winding polygon the line crosses is collected for
      subtraction, one it misses is appended to `splited` unchanged. */
  method RouteOppositeWinding(geo: Geo, line: Line, splited: seq<Polygon>, oppositeLoopwiseList: seq<Polygon>)
    returns (pool: seq<Polygon>, notPolyList: seq<Polygon>)
    ensures notPolyList == Select(oppositeLoopwiseList, Crossed(geo, line), true)
    ensures pool == splited + Select(oppositeLoopwiseList, Crossed(geo, line), false)
  {
    pool, notPolyList := splited, [];
    var k := 0;
    while k < |oppositeLoopwiseList|
      invariant 0 <= k <= |oppositeLoopwiseList|
      invariant notPolyList == Select(oppositeLoopwiseList[..k], Crossed(geo, line), true)
      invariant pool == splited + Select(oppositeLoopwiseList[..k], Crossed(geo, line), false)
    {
      var poly := oppositeLoopwiseList[k];
      var sp := geo.splitPolyByLine(poly, line);
      if |sp| > 0 {
        notPolyList := notPolyList + [poly];
      } else {
        pool := pool + [poly];
      }
      assert oppositeLoopwiseList[..k + 1][..k] == oppositeLoopwiseList[..k];
      k := k + 1;
    }
    assert oppositeLoopwiseList[..k] == oppositeLoopwiseList;
  }

  /** splitShape as the source runs it: the three forEach passes, then a map of left-fold
      subtractions and a regrouping that carries the style over. */
  method SplitShape(geo: Geo, shape: SvgPath, line: Line) returns (r: seq<SvgPath>)
    ensures r == Fragments(geo, shape, line)
    ensures |geo.splitPolyByLine(shape.d, line)| < 2 ==> r == [shape]
    ensures forall s :: s in r ==> s.style == shape.style
  {
    var splited := geo.splitPolyByLine(shape.d, line);
    if |splited| < 2 {
      return [shape];
    }
    var sameLoopwiseList, oppositeLoopwiseList := ClassifyByWinding(geo, shape);
    splited := PoolSameWinding(geo, line, splited, sameLoopwiseList);
    var notPolyList;
    splited, notPolyList := RouteOppositeWinding(geo, line, splited, oppositeLoopwiseList);
    var splitedAfterNot := seq(|splited|, i requires 0 <= i < |splited| => SubtractAll(geo, splited[i], notPolyList));
    assert splitedAfterNot == Subtracted(geo, Pool(geo, shape, line), Holes(geo, shape, line));
    r := Regroup(geo.getIncludedPolygonGroups(splitedAfterNot), shape.style);
  }
}
