/** splirtGrid: cut every path along axis-aligned lines 10 units apart across the
    combined bounding box, vertical lines first, then horizontal ones. */
module Grid {
  import opened Wrappers
  import opened Okageo
  import opened Bounds
  import opened Split

  /** The fixed cell size. */
  const GridSize: real := 10.0

  /** The largest length `Array(n)` accepts (2^32 - 1). */
  const MaxArrayLength: int := 0xFFFF_FFFF

  /** `Array(n)` throws a RangeError for a length that is negative, infinite or too large. */
  datatype GridError = InvalidArrayLength

  /** `Math.ceil` on a finite number. */
  function Ceil(r: real): (n: int)
    ensures r <= n as real < r + 1.0
  {
    var f := r.Floor;
    if f as real == r then f else f + 1
  }

  /** How many indices the loop over one axis visits (index 0 is skipped). */
  function CutCount(extent: real): int
  {
    Ceil(extent / GridSize)
  }

  /** The vertical cut at index i: x = minX + i*10, spanning the box's height. */
  function VerticalCut(b: Rect, i: int): Line
  {
    Line(Vec2(b.x + i as real * GridSize, b.y), Vec2(b.x + i as real * GridSize, b.y + b.height))
  }

  /** The horizontal cut at index i: y = minY + i*10, spanning the box's width. */
  function HorizontalCut(b: Rect, i: int): Line
  {
    Line(Vec2(b.x, b.y + i as real * GridSize), Vec2(b.x + b.width, b.y + i as real * GridSize))
  }

  /** The vertical cuts for indices 1 .. CutCount(width) - 1, in index order. */
  function VerticalCuts(b: Rect): (r: seq<Line>)
    ensures |r| == if CutCount(b.width) > 0 then CutCount(b.width) - 1 else 0
  {
    var n := if CutCount(b.width) > 0 then CutCount(b.width) - 1 else 0;
    seq(n, k requires 0 <= k < n => VerticalCut(b, k + 1))
  }

  /** The horizontal cuts for indices 1 .. CutCount(height) - 1, in index order. */
  function HorizontalCuts(b: Rect): (r: seq<Line>)
    ensures |r| == if CutCount(b.height) > 0 then CutCount(b.height) - 1 else 0
  {
    var n := if CutCount(b.height) > 0 then CutCount(b.height) - 1 else 0;
    seq(n, k requires 0 <= k < n => HorizontalCut(b, k + 1))
  }

  /** Every cut the grid applies, in the order it applies them. */
  function GridLines(b: Rect): seq<Line>
  {
    VerticalCuts(b) + HorizontalCuts(b)
  }

  /** One cut over a path list: each path through splitShape, results concatenated in path order. */
  function ApplyCut(geo: Geo, paths: seq<SvgPath>, line: Line): seq<SvgPath>
  {
    if paths == [] then []
    else ApplyCut(geo, paths[..|paths| - 1], line) + Fragments(geo, paths[|paths| - 1], line)
  }

  /** The cuts applied one after another, each to the previous cut's output. */
  function ApplyCuts(geo: Geo, paths: seq<SvgPath>, lines: seq<Line>): seq<SvgPath>
  {
    if lines == [] then paths
    else ApplyCut(geo, ApplyCuts(geo, paths, lines[..|lines| - 1]), lines[|lines| - 1])
  }

  /** The result of splirtGrid: the thrown RangeError, or the cut paths. */
  function GridPieces(geo: Geo, paths: seq<SvgPath>): Result<seq<SvgPath>, GridError>
  {
    match MaxSize(paths)
    case None => Err(InvalidArrayLength)
    case Some(b) =>
      if CutCount(b.width) > MaxArrayLength || CutCount(b.height) > MaxArrayLength then Err(InvalidArrayLength)
      else Ok(ApplyCuts(geo, paths, GridLines(b)))
  }

  /** Cut lines over a box: every cut lies strictly inside the box and spans it, neighbouring
      cuts are one cell apart, the vertical ones all come before the horizontal ones, and the
      last cut on each axis leaves at most one cell to the far side. */
  lemma GridLinesLayout(b: Rect)
    requires b.width >= 0.0 && b.height >= 0.0
    ensures var v, h := VerticalCuts(b), HorizontalCuts(b);
      GridLines(b) == v + h &&
      (forall k :: 0 <= k < |v| ==>
        v[k].from.x == v[k].to.x == b.x + (k + 1) as real * GridSize &&
        b.x < v[k].from.x < b.x + b.width &&
        v[k].from.y == b.y && v[k].to.y == b.y + b.height) &&
      (forall k :: 0 <= k < |h| ==>
        h[k].from.y == h[k].to.y == b.y + (k + 1) as real * GridSize &&
        b.y < h[k].from.y < b.y + b.height &&
        h[k].from.x == b.x && h[k].to.x == b.x + b.width) &&
      b.x + b.width - GridSize <= b.x + |v| as real * GridSize &&
      b.y + b.height - GridSize <= b.y + |h| as real * GridSize
  {
  }

  /** The first i vertical cuts extend the first i - 1 by the cut at index i. */
  lemma VerticalPrefix(b: Rect, i: int)
    requires 1 <= i <= |VerticalCuts(b)|
    ensures VerticalCuts(b)[..i] == VerticalCuts(b)[..i - 1] + [VerticalCut(b, i)]
  {
  }

  /** The first i horizontal cuts extend the first i - 1 by the cut at index i. */
  lemma HorizontalPrefix(b: Rect, i: int)
    requires 1 <= i <= |HorizontalCuts(b)|
    ensures HorizontalCuts(b)[..i] == HorizontalCuts(b)[..i - 1] + [HorizontalCut(b, i)]
  {
  }

  /** A cut distributes over concatenation of path lists, keeping order. */
  lemma {:induction false} ApplyCutAppend(geo: Geo, a: seq<SvgPath>, b: seq<SvgPath>, line: Line)
    ensures ApplyCut(geo, a + b, line) == ApplyCut(geo, a, line) + ApplyCut(geo, b, line)
    decreases |b|
  {
    if b != [] {
      var init, last := b[..|b| - 1], b[|b| - 1];
      assert (a + b)[..|a + b| - 1] == a + init;
      assert ApplyCut(geo, a + b, line) == ApplyCut(geo, a + init, line) + Fragments(geo, last, line);
      ApplyCutAppend(geo, a, init, line);
      assert ApplyCut(geo, b, line) == ApplyCut(geo, init, line) + Fragments(geo, last, line);
    } else {
      assert a + b == a;
    }
  }

  /** A cut that splits no root into two or more pieces leaves the path list unchanged. */
  lemma {:induction false} ApplyCutMisses(geo: Geo, paths: seq<SvgPath>, line: Line)
    requires forall k :: 0 <= k < |paths| ==> |geo.splitPolyByLine(paths[k].d, line)| < 2
    ensures ApplyCut(geo, paths, line) == paths
  {
    if paths != [] {
      var init := paths[..|paths| - 1];
      ApplyCutMisses(geo, init, line);
      assert paths == init + [paths[|paths| - 1]];
    }
  }

  /** Applying two batches of cuts in turn is applying their concatenation. */
  lemma {:induction false} ApplyCutsAppend(geo: Geo, paths: seq<SvgPath>, first: seq<Line>, second: seq<Line>)
    ensures ApplyCuts(geo, paths, first + second) == ApplyCuts(geo, ApplyCuts(geo, paths, first), second)
    decreases |second|
  {
    if second == [] {
      assert first + second == first;
    } else {
      var init := second[..|second| - 1];
      assert (first + second)[..|first + second| - 1] == first + init;
      ApplyCutsAppend(geo, paths, first, init);
    }
  }

  /** The body of one cut: `list = list.concat(splitShape(path, line))` for every path in turn. */
  method CutPaths(geo: Geo, splited: seq<SvgPath>, line: Line) returns (list: seq<SvgPath>)
    ensures list == ApplyCut(geo, splited, line)
  {
    list := [];
    var j := 0;
    while j < |splited|
      invariant 0 <= j <= |splited|
      invariant list == ApplyCut(geo, splited[..j], line)
    {
      var parts := SplitShape(geo, splited[j], line);
      list := list + parts;
      assert splited[..j + 1][..j] == splited[..j];
      j := j + 1;
    }
    assert splited[..j] == splited;
  }

  /** splirtGrid's first loop: `for (let i = 0; i < Math.ceil(width / 10); i++)`, skipping
      index 0, cutting the current list along x = minX + i*10. */
  method VerticalPass(geo: Geo, paths: seq<SvgPath>, b: Rect) returns (splited: seq<SvgPath>)
    ensures splited == ApplyCuts(geo, paths, VerticalCuts(b))
  {
    splited := paths;
    var n := CutCount(b.width);
    var i := 0;
    while i < n
      invariant 0 <= i && (i <= n || i == 0)
      invariant splited == ApplyCuts(geo, paths, VerticalCuts(b)[..if i == 0 then 0 else i - 1])
    {
      if i != 0 {
        var list := CutPaths(geo, splited, VerticalCut(b, i));
        ghost var done := VerticalCuts(b)[..i - 1];
        VerticalPrefix(b, i);
        assert (done + [VerticalCut(b, i)])[..|done|] == done;
        splited := list;
      }
      i := i + 1;
    }
    assert VerticalCuts(b)[..if i == 0 then 0 else i - 1] == VerticalCuts(b);
  }

  /** splirtGrid's second loop: `for (let i = 0; i < Math.ceil(height / 10); i++)`, skipping
      index 0, cutting the current list along y = minY + i*10. */
  method HorizontalPass(geo: Geo, paths: seq<SvgPath>, b: Rect) returns (splited: seq<SvgPath>)
    ensures splited == ApplyCuts(geo, paths, HorizontalCuts(b))
  {
    splited := paths;
    var n := CutCount(b.height);
    var i := 0;
    while i < n
      invariant 0 <= i && (i <= n || i == 0)
      invariant splited == ApplyCuts(geo, paths, HorizontalCuts(b)[..if i == 0 then 0 else i - 1])
    {
      if i != 0 {
        var list := CutPaths(geo, splited, HorizontalCut(b, i));
        ghost var done := HorizontalCuts(b)[..i - 1];
        HorizontalPrefix(b, i);
        assert (done + [HorizontalCut(b, i)])[..|done|] == done;
        splited := list;
      }
      i := i + 1;
    }
    assert HorizontalCuts(b)[..if i == 0 then 0 else i - 1] == HorizontalCuts(b);
  }

  /** splirtGrid as the source runs it: the bounding box, then the vertical and the
      horizontal pass; `Array(n)` throws when a cut count is not a valid array length. */
  method SplitGrid(geo: Geo, paths: seq<SvgPath>) returns (r: Result<seq<SvgPath>, GridError>)
    ensures r == GridPieces(geo, paths)
  {
    var size := GetMaxSize(paths);
    if size.None? {
      return Err(InvalidArrayLength);
    }
    var b := size.value;
    if CutCount(b.width) > MaxArrayLength {
      return Err(InvalidArrayLength);
    }
    var splited := VerticalPass(geo, paths, b);
    if CutCount(b.height) > MaxArrayLength {
      return Err(InvalidArrayLength);
    }
    splited := HorizontalPass(geo, splited, b);
    ApplyCutsAppend(geo, paths, VerticalCuts(b), HorizontalCuts(b));
    r := Ok(splited);
  }
}
